/**
 The polling protocol (app/main.py): at-least-once delivery from the server, an offset stored
 after each update, webhook deliveries in between, and a crash or failure anywhere.
 */
module Polling {
  import opened Wrappers
  import opened PyText
  import opened Tables
  import opened PipelineSafety
  import opened Commands
  import App

  /** One entry of the server's feed; no content means it cannot be parsed. */
  datatype Update = Update(id: int, content: Option<Message>)

  /** The poller is idle, or works on feed[next..stop]; `handled` says handle_update has returned. */
  datatype Poller = Idle | Batch(next: nat, stop: nat, handled: bool)

  /** `gated` and `lost` record the ids whose handling stored no row because of a gate, or of an exception. */
  datatype State = State(
    db: Db, offset: int, poller: Poller, feed: seq<Update>, gated: set<int>, lost: set<int>)

  datatype Step =
    | Arrive(update: Update)
    | Poll(count: nat)
    | Handle(allowed: seq<int>, raises: bool)
    | Advance
    | Interrupt
    | Webhook(content: Option<Message>, allowed: seq<int>, raises: bool)

  function Init(now: int): State {
    State(Db([], [], [], now), 0, Idle, [], {}, {})
  }

  /** The first position of the feed at or after the offset: where the server starts its answer. */
  function First(feed: seq<Update>, offset: int): (i: nat)
    ensures i <= |feed|
    ensures forall k :: 0 <= k < i ==> feed[k].id < offset
    ensures i < |feed| ==> feed[i].id >= offset
  {
    if feed != [] && feed[0].id < offset then 1 + First(feed[1..], offset) else 0
  }

  predicate Enabled(s: State, step: Step) {
    match step
    case Arrive(u) =>
      && u.id >= 0 && (u.content.Some? ==> u.content.value.updateId == Some(u.id))
      && (s.feed != [] ==> s.feed[|s.feed| - 1].id < u.id)
    case Poll(n) => s.poller.Idle? && First(s.feed, s.offset) + n <= |s.feed|
    case Handle(_, _) => s.poller.Batch? && !s.poller.handled && s.poller.next < |s.feed|
    case Advance => s.poller.Batch? && s.poller.handled && s.poller.next < |s.feed|
    case _ => true
  }

  /**
   The tables after one delivery, polled or by the webhook; `raises` is any exception before
   something could be stored.
   */
  function Delivered(db: Db, content: Option<Message>, allowed: seq<int>, raises: bool): Db {
    var gate := App.Gate(content, allowed);
    if raises then db
    else if gate.Some? then (if gate.value.Command? then CommandEffect(db, content.value.text.value) else db)
    else if StorableMessage(content.value) then InsertRow(db, content.value).0
    else db
  }

  /** The handler raises before its insert, or its insert is refused. */
  predicate Loses(u: Update, allowed: seq<int>, raises: bool) {
    raises || (App.Gate(u.content, allowed).None? && !StorableMessage(u.content.value))
  }

  /** One polled update handled. */
  function Handled(s: State, u: Update, allowed: seq<int>, raises: bool): State {
    s.(db := Delivered(s.db, u.content, allowed, raises),
       lost := if Loses(u, allowed, raises) then s.lost + {u.id} else s.lost,
       gated := if !raises && App.Gate(u.content, allowed).Some? then s.gated + {u.id} else s.gated)
  }

  function Apply(s: State, step: Step): State
    requires Enabled(s, step)
  {
    match step
    case Arrive(u) => s.(feed := s.feed + [u])
    case Poll(n) =>
      var start := First(s.feed, s.offset);
      if n == 0 then s else s.(poller := Batch(start, start + n, false))
    case Handle(allowed, raises) =>
      Handled(s, s.feed[s.poller.next], allowed, raises).(poller := s.poller.(handled := true))
    case Advance =>
      var i := s.poller.next;
      s.(offset := s.feed[i].id + 1,
         poller := if i + 1 < s.poller.stop then Batch(i + 1, s.poller.stop, false) else Idle)
    case Interrupt => s.(poller := Idle)
    case Webhook(content, allowed, raises) => s.(db := Delivered(s.db, content, allowed, raises))
  }

  predicate Runs(s: State, steps: seq<Step>)
    decreases |steps|
  {
    steps != [] ==> Enabled(s, steps[0]) && Runs(Apply(s, steps[0]), steps[1..])
  }

  function Exec(s: State, steps: seq<Step>): State
    requires Runs(s, steps)
    decreases |steps|
  {
    if steps == [] then s else Exec(Apply(s, steps[0]), steps[1..])
  }

  /** An update with this id was stored, stopped by a gate, or lost. */
  predicate Resolved(s: State, id: int) {
    Captured(s.db.inbox, Some(id)) || id in s.gated || id in s.lost
  }

  predicate FeedOk(feed: seq<Update>) {
    && (forall i :: 0 <= i < |feed| ==>
          feed[i].id >= 0 && (feed[i].content.Some? ==> feed[i].content.value.updateId == Some(feed[i].id)))
    && (forall i, j :: 0 <= i < j < |feed| ==> feed[i].id < feed[j].id)
  }

  predicate PollerOk(s: State) {
    s.poller.Batch? ==>
      && s.poller.next < s.poller.stop <= |s.feed|
      && s.feed[s.poller.next].id >= s.offset
      && (forall i :: 0 <= i < s.poller.next ==> s.feed[i].id < s.offset)
      && (s.poller.handled ==> Resolved(s, s.feed[s.poller.next].id))
  }

  /** The offset only ever follows an update of the feed. */
  predicate OffsetOk(s: State) {
    s.offset == 0 || (s.feed != [] && 0 <= s.offset <= s.feed[|s.feed| - 1].id + 1)
  }

  predicate Inv(s: State) {
    && FeedOk(s.feed) && UpdatesDistinct(s.db.inbox) && PollerOk(s) && OffsetOk(s)
    && forall i :: 0 <= i < |s.feed| && s.feed[i].id < s.offset ==> Resolved(s, s.feed[i].id)
  }

  lemma InsertKeepsDistinct(db: Db, msg: Message)
    requires UpdatesDistinct(db.inbox)
    ensures UpdatesDistinct(InsertRow(db, msg).0.inbox)
    ensures forall id :: Captured(db.inbox, id) ==> Captured(InsertRow(db, msg).0.inbox, id)
    ensures msg.updateId.Some? ==> Captured(InsertRow(db, msg).0.inbox, msg.updateId)
  {
    var after := InsertRow(db, msg).0.inbox;
    forall id | Captured(db.inbox, id)
      ensures Captured(after, id)
    {
      var r :| 0 <= r < |db.inbox| && db.inbox[r].msg.updateId == id;
      assert after[r].msg.updateId == id;
    }
    if !Captured(db.inbox, msg.updateId) {
      assert after[|db.inbox|].msg == msg;
    }
  }

  /** Nothing stored, stopped or lost is forgotten. */
  ghost predicate Remembers(s: State, t: State) {
    forall id :: Resolved(s, id) ==> Resolved(t, id)
  }

  /** Rows may be added and drops recorded without disturbing the rest. */
  lemma GrowthKeepsInv(s: State, t: State)
    requires Inv(s) && Remembers(s, t) && UpdatesDistinct(t.db.inbox)
    requires t.feed == s.feed && t.offset == s.offset && t.poller == s.poller
    ensures Inv(t)
  {
  }

  lemma HandledKeepsInv(s: State, u: Update, allowed: seq<int>, raises: bool)
    requires Inv(s) && (u.content.Some? ==> u.content.value.updateId == Some(u.id))
    ensures var t := Handled(s, u, allowed, raises);
            Inv(t) && Remembers(s, t) && Resolved(t, u.id)
  {
    DeliveredKeepsDistinct(s.db, u.content, allowed, raises);
    if u.content.Some? {
      InsertKeepsDistinct(s.db, u.content.value);
    }
    hide CommandEffect, InsertRow, StorableMessage, Captured, UpdatesDistinct, PollerOk, OffsetOk, FeedOk;
    var t := Handled(s, u, allowed, raises);
    assert Resolved(t, u.id);
    hide Delivered, Loses;
    GrowthKeepsInv(s, t);
  }

  lemma DeliveredKeepsDistinct(db: Db, content: Option<Message>, allowed: seq<int>, raises: bool)
    requires UpdatesDistinct(db.inbox)
    ensures UpdatesDistinct(Delivered(db, content, allowed, raises).inbox)
    ensures forall id :: Captured(db.inbox, id) ==> Captured(Delivered(db, content, allowed, raises).inbox, id)
  {
    if content.Some? {
      InsertKeepsDistinct(db, content.value);
      if content.value.text.Some? {
        CommandKeeps(db, content.value.text.value);
      }
    }
    hide CommandEffect, InsertRow, StorableMessage, Captured, UpdatesDistinct;
  }

  lemma ArriveKeepsInv(s: State, u: Update)
    requires Inv(s) && Enabled(s, Arrive(u))
    ensures Inv(Apply(s, Arrive(u)))
  {
    var t := Apply(s, Arrive(u));
    assert FeedOk(t.feed);
    assert s.offset <= u.id;
    assert forall i :: 0 <= i < |s.feed| ==> t.feed[i] == s.feed[i];
    assert PollerOk(t);
  }

  lemma PollKeepsInv(s: State, count: nat)
    requires Inv(s) && Enabled(s, Poll(count))
    ensures Inv(Apply(s, Poll(count)))
  {
  }

  lemma AdvanceKeepsInv(s: State)
    requires Inv(s) && Enabled(s, Advance)
    ensures Inv(Apply(s, Advance)) && Apply(s, Advance).offset > s.offset
  {
    var t, i := Apply(s, Advance), s.poller.next;
    forall k | 0 <= k < |t.feed| && t.feed[k].id < t.offset
      ensures Resolved(t, t.feed[k].id)
    {
      assert k <= i;
      assert Resolved(s, s.feed[k].id);
    }
    assert PollerOk(t);
  }

  lemma StepInv(s: State, step: Step)
    requires Inv(s) && Enabled(s, step)
    ensures Inv(Apply(s, step)) && Apply(s, step).offset >= s.offset
  {
    match step {
      case Arrive(u) => ArriveKeepsInv(s, u);
      case Poll(n) => PollKeepsInv(s, n);
      case Handle(allowed, raises) =>
        var u := s.feed[s.poller.next];
        HandledKeepsInv(s, u, allowed, raises);
        HandledMarked(Handled(s, u, allowed, raises));
      case Advance => AdvanceKeepsInv(s);
      case Interrupt =>
      case Webhook(content, allowed, raises) =>
        DeliveredKeepsDistinct(s.db, content, allowed, raises);
        GrowthKeepsInv(s, Apply(s, step));
    }
  }

  lemma HandledMarked(s: State)
    requires Inv(s) && s.poller.Batch? && Resolved(s, s.feed[s.poller.next].id)
    ensures Inv(s.(poller := s.poller.(handled := true)))
  {
  }

  lemma {:induction false} RunInv(s: State, steps: seq<Step>)
    requires Inv(s) && Runs(s, steps)
    ensures Inv(Exec(s, steps)) && Exec(s, steps).offset >= s.offset
    decreases |steps|
  {
    if steps != [] {
      StepInv(s, steps[0]);
      RunInv(Apply(s, steps[0]), steps[1..]);
    }
  }

  function RowsFor(inbox: seq<Row>, id: int): nat {
    if inbox == [] then 0
    else RowsFor(inbox[..|inbox| - 1], id) + (if inbox[|inbox| - 1].msg.updateId == Some(id) then 1 else 0)
  }

  lemma CapturedLast(inbox: seq<Row>, id: int)
    requires inbox != []
    ensures var n := |inbox| - 1;
            Captured(inbox, Some(id)) <==> Captured(inbox[..n], Some(id)) || inbox[n].msg.updateId == Some(id)
  {
    var n := |inbox| - 1;
    if Captured(inbox, Some(id)) {
      var r :| 0 <= r < |inbox| && inbox[r].msg.updateId == Some(id);
      assert r < n ==> inbox[..n][r].msg.updateId == Some(id);
    }
    assert forall r :: 0 <= r < n ==> inbox[..n][r] == inbox[r];
  }

  lemma {:induction false} DistinctMeansOne(inbox: seq<Row>, id: int)
    requires UpdatesDistinct(inbox)
    ensures RowsFor(inbox, id) == if Captured(inbox, Some(id)) then 1 else 0
  {
    if inbox != [] {
      DistinctMeansOne(inbox[..|inbox| - 1], id);
      CapturedLast(inbox, id);
    }
  }

  /**
   Exactly-once capture: in every run, with crashes and webhook redelivery anywhere, no update id
   has two rows, and every update of the feed below the offset has exactly one row, or was stopped
   by a gate, or was lost.
   */
  lemma {:induction false} ExactlyOnceCapture(now: int, steps: seq<Step>, i: nat)
    requires Runs(Init(now), steps) && i < |Exec(Init(now), steps).feed|
    ensures var s := Exec(Init(now), steps);
            var id := s.feed[i].id;
            && RowsFor(s.db.inbox, id) <= 1
            && (id < s.offset ==> RowsFor(s.db.inbox, id) == 1 || id in s.gated || id in s.lost)
  {
    RunInv(Init(now), steps);
    DistinctMeansOne(Exec(Init(now), steps).db.inbox, Exec(Init(now), steps).feed[i].id);
  }

  // ---- When a capture is lost ----

  /** In the run, some handling of the update with this id raises before its insert or is refused it. */
  predicate LostInRun(s: State, steps: seq<Step>, id: int)
    requires Runs(s, steps)
    decreases |steps|
  {
    steps != [] && (LosesBy(s, steps[0], id) || LostInRun(Apply(s, steps[0]), steps[1..], id))
  }

  predicate LosesBy(s: State, step: Step, id: int)
    requires Enabled(s, step)
  {
    step.Handle?
    && var u := s.feed[s.poller.next];
       && u.id == id
       && (step.raises || (App.Admitted(u.content, step.allowed) && !StorableMessage(u.content.value)))
  }

  /** Some handling of it stops at a gate. */
  predicate GatedInRun(s: State, steps: seq<Step>, id: int)
    requires Runs(s, steps)
    decreases |steps|
  {
    steps != [] && (GatedBy(s, steps[0], id) || GatedInRun(Apply(s, steps[0]), steps[1..], id))
  }

  predicate GatedBy(s: State, step: Step, id: int)
    requires Enabled(s, step)
  {
    step.Handle? && var u := s.feed[s.poller.next]; u.id == id && !App.Admitted(u.content, step.allowed)
  }

  lemma {:induction false} RecordedReasons(s: State, steps: seq<Step>, id: int)
    requires Runs(s, steps)
    ensures id in Exec(s, steps).lost ==> id in s.lost || LostInRun(s, steps, id)
    ensures id in Exec(s, steps).gated ==> id in s.gated || GatedInRun(s, steps, id)
    decreases |steps|
  {
    hide StorableMessage, CommandEffect, InsertRow;
    if steps != [] {
      if steps[0].Handle? {
        App.GateIff(s.feed[s.poller.next].content, steps[0].allowed);
      }
      RecordedReasons(Apply(s, steps[0]), steps[1..], id);
      hide Runs;
    }
  }

  /** The step stores the update with this id, or finds it stored: its insert is reached and taken. */
  predicate StoresBy(s: State, step: Step, id: int)
    requires Enabled(s, step)
  {
    || (step.Webhook? && App.Admitted(step.content, step.allowed) && !step.raises
        && StorableMessage(step.content.value) && step.content.value.updateId == Some(id))
    || (step.Handle?
        && var u := s.feed[s.poller.next];
           && u.id == id && App.Admitted(u.content, step.allowed)
           && !step.raises && StorableMessage(u.content.value))
  }

  predicate StoredInRun(s: State, steps: seq<Step>, id: int)
    requires Runs(s, steps)
    decreases |steps|
  {
    steps != [] && (StoresBy(s, steps[0], id) || StoredInRun(Apply(s, steps[0]), steps[1..], id))
  }

  lemma InsertOther(db: Db, msg: Message, id: int)
    requires !Captured(db.inbox, Some(id)) && msg.updateId != Some(id)
    ensures !Captured(InsertRow(db, msg).0.inbox, Some(id))
  {
  }

  lemma InsertCaptures(db: Db, msg: Message, id: int)
    requires UpdatesDistinct(db.inbox)
    ensures Captured(InsertRow(db, msg).0.inbox, Some(id)) <==>
            Captured(db.inbox, Some(id)) || msg.updateId == Some(id)
  {
    InsertKeepsDistinct(db, msg);
    hide InsertRow, UpdatesDistinct;
    if !Captured(db.inbox, Some(id)) && msg.updateId != Some(id) {
      InsertOther(db, msg, id);
    }
    hide Captured;
  }

  lemma StepCapturesIff(s: State, step: Step, id: int)
    requires Inv(s) && Enabled(s, step)
    ensures Captured(Apply(s, step).db.inbox, Some(id)) <==> Captured(s.db.inbox, Some(id)) || StoresBy(s, step, id)
  {
    hide Captured, UpdatesDistinct, PollerOk, OffsetOk, CommandEffect, InsertRow, StorableMessage;
    match step {
      case Webhook(content, allowed, _) =>
        App.GateIff(content, allowed);
        if content.Some? {
          InsertCaptures(s.db, content.value, id);
          if content.value.text.Some? {
            CommandKeeps(s.db, content.value.text.value);
          }
        }
      case Handle(allowed, raises) =>
        var u := s.feed[s.poller.next];
        App.GateIff(u.content, allowed);
        if u.content.Some? {
          InsertCaptures(s.db, u.content.value, id);
          if u.content.value.text.Some? {
            CommandKeeps(s.db, u.content.value.text.value);
          }
        }
      case _ =>
    }
  }

  /**
   Exactly what is captured: over any run, an update has a row at the end if and only if it had one
   before, or some handling of it, polled or delivered by the webhook, passed the gates and did not
   raise.
   */
  lemma {:induction false} CapturedIff(s: State, steps: seq<Step>, id: int)
    requires Inv(s) && Runs(s, steps)
    ensures Captured(Exec(s, steps).db.inbox, Some(id)) <==> Captured(s.db.inbox, Some(id)) || StoredInRun(s, steps, id)
    decreases |steps|
  {
    if steps != [] {
      StepCapturesIff(s, steps[0], id);
      StepInv(s, steps[0]);
      hide Inv, Captured, Apply, Enabled, StoresBy;
      CapturedIff(Apply(s, steps[0]), steps[1..], id);
    }
  }

  /** From the start, an update has exactly one row if some step stored it, and none otherwise. */
  lemma {:induction false} OneRowIffStored(now: int, steps: seq<Step>, id: int)
    requires Runs(Init(now), steps)
    ensures RowsFor(Exec(Init(now), steps).db.inbox, id) == if StoredInRun(Init(now), steps, id) then 1 else 0
  {
    assert Inv(Init(now)) && !Captured(Init(now).db.inbox, Some(id));
    hide Runs, Exec, Init, StoredInRun;
    RunInv(Init(now), steps);
    CapturedIff(Init(now), steps, id);
    DistinctMeansOne(Exec(Init(now), steps).db.inbox, id);
  }

  /**
   "Never lose a capture", as far as it goes: an update below the offset has exactly one row, stored
   by some step of the run, unless every handling of it stopped at a gate or raised before its insert.
   */
  lemma {:induction false} StoredUnlessLost(now: int, steps: seq<Step>, i: nat)
    requires Runs(Init(now), steps) && i < |Exec(Init(now), steps).feed|
    requires Exec(Init(now), steps).feed[i].id < Exec(Init(now), steps).offset
    ensures var id := Exec(Init(now), steps).feed[i].id;
            var rows := RowsFor(Exec(Init(now), steps).db.inbox, id);
            && (rows == 1 <==> StoredInRun(Init(now), steps, id))
            && (rows == 0 ==> GatedInRun(Init(now), steps, id) || LostInRun(Init(now), steps, id))
  {
    var id := Exec(Init(now), steps).feed[i].id;
    OneRowIffStored(now, steps, id);
    ExactlyOnceCapture(now, steps, i);
    RecordedReasons(Init(now), steps, id);
  }

  // ---- Whose messages get in ----

  /** The step handles this message, polled or from the webhook, and may store it: its user is listed. */
  predicate LetsIn(s: State, step: Step, msg: Message)
    requires Enabled(s, step)
  {
    && ((step.Webhook? && step.content == Some(msg)) || (step.Handle? && s.feed[s.poller.next].content == Some(msg)))
    && msg.userId in step.allowed && msg.chatId.Some?
    && !(msg.text.Some? && msg.text.value != "" && msg.text.value[0] == '/')
  }

  predicate LetInDuring(s: State, steps: seq<Step>, msg: Message)
    requires Runs(s, steps)
    decreases |steps|
  {
    steps != [] && (LetsIn(s, steps[0], msg) || LetInDuring(Apply(s, steps[0]), steps[1..], msg))
  }

  /** A step keeps every row and adds at most one, for a message that it lets in. */
  lemma StepAddsAdmitted(s: State, step: Step)
    requires Enabled(s, step)
    ensures var a, b := s.db.inbox, Apply(s, step).db.inbox;
            && |a| <= |b| <= |a| + 1 && b[..|a|] == a
            && (|b| > |a| ==> LetsIn(s, step, b[|a|].msg))
    ensures step.Webhook? && step.content.Some? && step.content.value.userId !in step.allowed ==>
              Apply(s, step).db == s.db
    ensures step.Handle? && s.feed[s.poller.next].content.Some?
            && s.feed[s.poller.next].content.value.userId !in step.allowed ==>
              Apply(s, step).db == s.db
  {
    hide CommandEffect, StorableMessage;
    if step.Handle? || step.Webhook? {
      var content := if step.Handle? then s.feed[s.poller.next].content else step.content;
      App.GateIff(content, step.allowed);
      if content.Some? && content.value.text.Some? {
        CommandKeeps(s.db, content.value.text.value);
      }
    }
  }

  /**
   Over any run, every row is one from before or holds a message that was handled when its user was
   on the list of that moment, with a chat to answer to and no command text.
   */
  lemma {:induction false} RowsAreAdmitted(s: State, steps: seq<Step>, r: nat)
    requires Runs(s, steps) && r < |Exec(s, steps).db.inbox|
    ensures |s.db.inbox| <= |Exec(s, steps).db.inbox| && Exec(s, steps).db.inbox[..|s.db.inbox|] == s.db.inbox
    ensures r >= |s.db.inbox| ==> LetInDuring(s, steps, Exec(s, steps).db.inbox[r].msg)
    decreases |steps|
  {
    hide Apply, Enabled, LetsIn;
    if steps != [] {
      var t := Apply(s, steps[0]);
      StepAddsAdmitted(s, steps[0]);
      RowsAreAdmitted(t, steps[1..], r);
      var end := Exec(s, steps).db.inbox;
      assert end[..|s.db.inbox|] == end[..|t.db.inbox|][..|s.db.inbox|];
      if |s.db.inbox| <= r < |t.db.inbox| {
        assert end[r] == end[..|t.db.inbox|][r];
      }
    }
  }

  /** The same update is delivered by the webhook. */
  predicate WebhookDelivers(steps: seq<Step>, id: int) {
    exists n :: 0 <= n < |steps| && steps[n].Webhook?
                && steps[n].content.Some? && steps[n].content.value.updateId == Some(id)
  }

  /** An update below the offset is not handled again: the server is not asked for it. */
  lemma {:induction false} NotServedAgain(s: State, steps: seq<Step>, id: int)
    requires Inv(s) && Runs(s, steps) && id < s.offset && !WebhookDelivers(steps, id)
    ensures !StoredInRun(s, steps, id)
    decreases |steps|
  {
    if steps != [] {
      assert !StoresBy(s, steps[0], id);
      StepInv(s, steps[0]);
      assert forall n :: 0 <= n < |steps[1..]| ==> steps[1..][n] == steps[n + 1];
      hide Inv, Apply, Enabled, StoresBy;
      NotServedAgain(Apply(s, steps[0]), steps[1..], id);
    }
  }

  /** So without a row it never gets one from polling. */
  lemma {:induction false} LostForGood(s: State, steps: seq<Step>, id: int)
    requires Inv(s) && Runs(s, steps) && id < s.offset && !Captured(s.db.inbox, Some(id))
    requires !WebhookDelivers(steps, id)
    ensures !Captured(Exec(s, steps).db.inbox, Some(id))
  {
    hide Inv, Runs, Exec, Captured, WebhookDelivers;
    NotServedAgain(s, steps, id);
    CapturedIff(s, steps, id);
  }

  /**
   The offset is stored even when the handler raised, so a message that every gate lets through is
   lost: whatever the polling does afterwards, it never gets a row.
   */
  lemma RaisingHandlerLoses(now: int, id: nat, msg: Message, allowed: seq<int>) returns (steps: seq<Step>)
    requires msg.updateId == Some(id) && App.Admitted(Some(msg), allowed)
    ensures Runs(Init(now), steps)
    ensures var s := Exec(Init(now), steps);
            && s.feed == [Update(id, Some(msg))] && id < s.offset && Inv(s)
            && !Captured(s.db.inbox, Some(id))
            && forall more :: Runs(s, more) && !WebhookDelivers(more, id) ==>
                 !Captured(Exec(s, more).db.inbox, Some(id))
  {
    var start, u := Init(now), Update(id, Some(msg));
    steps := LosingRun(now, u, allowed);
    RunInv(start, steps);
    var s := Exec(start, steps);
    hide Inv, Exec, Runs, Init;
    assert !Captured(s.db.inbox, Some(id));
    forall more | Runs(s, more) && !WebhookDelivers(more, id)
      ensures !Captured(Exec(s, more).db.inbox, Some(id))
    {
      LostForGood(s, more, id);
    }
  }

  lemma LosingRun(now: int, u: Update, allowed: seq<int>) returns (steps: seq<Step>)
    requires u.id >= 0 && (u.content.Some? ==> u.content.value.updateId == Some(u.id))
    ensures Runs(Init(now), steps)
    ensures Exec(Init(now), steps) == State(Db([], [], [], now), u.id + 1, Idle, [u], {}, {u.id})
  {
    var start := Init(now);
    var arrive, poll, handle := Arrive(u), Poll(1), Handle(allowed, true);
    assert Runs(start, []) && Exec(start, []) == start;
    hide Runs, Exec;
    Snoc(start, [], arrive);
    assert [] + [u] == [u];
    Snoc(start, [] + [arrive], poll);
    Snoc(start, [] + [arrive] + [poll], handle);
    Snoc(start, [] + [arrive] + [poll] + [handle], Advance);
    steps := [] + [arrive] + [poll] + [handle] + [Advance];
    assert {} + {u.id} == {u.id};
  }

  // ---- The loop ----

  /** The offset as it is kept in the settings table, written by str() and read by int(). */
  function ReadOffset(setting: Option<string>): int {
    var n := ParseInt(if setting.Some? && setting.value != "" then setting.value else "0");
    if n.Some? then n.value else 0
  }

  /** An offset that str() can print is read back unchanged. */
  lemma OffsetRoundTrip(n: int)
    requires Printable(n)
    ensures ReadOffset(Some(IntToString(n))) == n
  {
    IntRoundTrip(n);
  }

  /** Without a setting, or with one that int() does not read, polling begins at 0. */
  lemma OffsetStartsAtZero(setting: Option<string>)
    requires setting.None? || setting.value == "" || ParseInt(setting.value).None?
    ensures ReadOffset(setting) == 0
  {
    IntRoundTrip(0);
    assert IntToString(0) == "0";
  }

  /** What the handler of each update meets. */
  datatype World = World(allowed: seq<int>, raises: bool)

  /** The first n updates of a batch handled and confirmed. */
  function Drained(s: State, updates: seq<Update>, worlds: seq<World>, n: nat): State
    requires n <= |updates| == |worlds|
  {
    if n == 0 then s
    else
      var w, u := worlds[n - 1], updates[n - 1];
      Handled(Drained(s, updates, worlds, n - 1), u, w.allowed, w.raises).(offset := u.id + 1)
  }

  class PollingLoop {
    var app: App.Application
    var offsetSetting: Option<string>
    ghost var gated: set<int>
    ghost var lost: set<int>

    constructor (app: App.Application)
      ensures this.app == app && offsetSetting == None && gated == {} && lost == {}
    {
      this.app, offsetSetting, gated, lost := app, None, {}, {};
    }

    /** The protocol state with an idle poller. */
    ghost function Now(feed: seq<Update>): State
      reads this, app
    {
      State(app.Contents(), ReadOffset(offsetSetting), Idle, feed, gated, lost)
    }

    /** One update handled and the offset behind it stored, unless str() refuses that offset. */
    method HandleOne(u: Update, w: World, ghost feed: seq<Update>) returns (ok: bool)
      modifies this, app
      ensures app == old(app) && ok == Printable(u.id + 1)
      ensures var handled := Handled(old(Now(feed)), u, w.allowed, w.raises);
              Now(feed) == if ok then handled.(offset := u.id + 1) else handled
    {
      hide CommandEffect, InsertRow, StorableMessage, Printable;
      if w.raises {
        lost := lost + {u.id};
      } else {
        var outcome := app.HandleUpdate(u.content, w.allowed, false, false, true);
        if outcome.Refused? {
          lost := lost + {u.id};
        } else if !outcome.Redelivered? && !outcome.Captured? {
          gated := gated + {u.id};
        }
      }
      if !Printable(u.id + 1) {
        return false;
      }
      offsetSetting := Some(IntToString(u.id + 1));
      OffsetRoundTrip(u.id + 1);
      hide ReadOffset, IntToString;
      ok := true;
    }

    /**
     One iteration over a server answer; it may be cut short after any update (`limit`), and it
     stops after handling an update whose next offset str() refuses.
     */
    method Iterate(updates: seq<Update>, worlds: seq<World>, limit: nat, ghost feed: seq<Update>)
      returns (confirmed: nat)
      requires limit <= |updates| == |worlds|
      modifies this, app
      ensures app == old(app)
      ensures confirmed <= limit && forall i :: 0 <= i < confirmed ==> Printable(updates[i].id + 1)
      ensures confirmed < limit ==> !Printable(updates[confirmed].id + 1)
      ensures var drained := Drained(old(Now(feed)), updates, worlds, confirmed);
              Now(feed) ==
              if confirmed == limit then drained
              else
                var w := worlds[confirmed];
                Handled(drained, updates[confirmed], w.allowed, w.raises)
    {
      hide Handled, ReadOffset, Printable;
      for n := 0 to limit
        invariant app == old(app)
        invariant forall i :: 0 <= i < n ==> Printable(updates[i].id + 1)
        invariant Now(feed) == Drained(old(Now(feed)), updates, worlds, n)
      {
        var ok := HandleOne(updates[n], worlds[n], feed);
        if !ok {
          return n;
        }
      }
      confirmed := limit;
    }
  }

  lemma {:induction false} DrainedKeeps(s: State, updates: seq<Update>, worlds: seq<World>, n: nat)
    requires n <= |updates| == |worlds|
    ensures Drained(s, updates, worlds, n).feed == s.feed && Drained(s, updates, worlds, n).poller == s.poller
  {
    if n > 0 {
      DrainedKeeps(s, updates, worlds, n - 1);
    }
  }

  /** Handling one update of a batch and confirming it. */
  lemma HandleThenAdvance(d: State, i: nat, stop: nat, w: World)
    requires i < stop <= |d.feed|
    ensures var t := d.(poller := Batch(i, stop, false));
            var u := d.feed[i];
            && Enabled(t, Handle(w.allowed, w.raises))
            && Enabled(Apply(t, Handle(w.allowed, w.raises)), Advance)
            && Apply(Apply(t, Handle(w.allowed, w.raises)), Advance) ==
                 Handled(d, u, w.allowed, w.raises).(
                   offset := u.id + 1, poller := if i + 1 < stop then Batch(i + 1, stop, false) else Idle)
  {
  }

  lemma OneMoreUpdate(s: State, before: seq<Step>, d: State, i: nat, stop: nat, w: World) returns (steps: seq<Step>)
    requires i < stop <= |d.feed|
    requires Runs(s, before) && Exec(s, before) == d.(poller := Batch(i, stop, false))
    ensures Runs(s, steps)
    ensures Exec(s, steps) ==
            Handled(d, d.feed[i], w.allowed, w.raises).(
              offset := d.feed[i].id + 1, poller := if i + 1 < stop then Batch(i + 1, stop, false) else Idle)
  {
    hide Exec, Runs, Handled;
    HandleThenAdvance(d, i, stop, w);
    Snoc(s, before, Handle(w.allowed, w.raises));
    Snoc(s, before + [Handle(w.allowed, w.raises)], Advance);
    steps := before + [Handle(w.allowed, w.raises)] + [Advance];
  }

  /** The protocol state when n updates of a batch have been handled and confirmed. */
  function Progress(s: State, start: nat, updates: seq<Update>, worlds: seq<World>, n: nat): State
    requires n <= |updates| == |worlds|
  {
    var drained := Drained(s, updates, worlds, n);
    if n < |updates| then drained.(poller := Batch(start + n, start + |updates|, false)) else drained
  }

  lemma PollIsRun(s: State, count: nat) returns (steps: seq<Step>)
    requires s.poller.Idle? && First(s.feed, s.offset) + count <= |s.feed|
    ensures Runs(s, steps)
    ensures Exec(s, steps) ==
            if count == 0 then s
            else s.(poller := Batch(First(s.feed, s.offset), First(s.feed, s.offset) + count, false))
  {
    hide First;
    steps := [] + [Poll(count)];
    Snoc(s, [], Poll(count));
  }

  /** An iteration is a run of the protocol: poll, then handle and advance until it is cut short. */
  lemma {:induction false} IterationIsRun(s: State, count: nat, worlds: seq<World>, n: nat) returns (steps: seq<Step>)
    requires s.poller.Idle?
    requires First(s.feed, s.offset) + count <= |s.feed| && n <= count == |worlds|
    ensures Runs(s, steps)
    ensures var start := First(s.feed, s.offset);
            Exec(s, steps) == Progress(s, start, s.feed[start..start + count], worlds, n)
  {
    hide Handled, First, Exec, Runs, Apply, Enabled;
    var start := First(s.feed, s.offset);
    var updates := s.feed[start..start + count];
    if n == 0 {
      steps := PollIsRun(s, count);
    } else {
      var before := IterationIsRun(s, count, worlds, n - 1);
      var d := Drained(s, updates, worlds, n - 1);
      DrainedKeeps(s, updates, worlds, n - 1);
      DrainedKeeps(s, updates, worlds, n);
      assert updates[n - 1] == d.feed[start + n - 1];
      steps := OneMoreUpdate(s, before, d, start + n - 1, start + count, worlds[n - 1]);
    }
  }

  /** So is one that ends between handling an update and confirming it. */
  lemma UnconfirmedIsRun(s: State, count: nat, worlds: seq<World>, n: nat) returns (steps: seq<Step>)
    requires s.poller.Idle?
    requires First(s.feed, s.offset) + count <= |s.feed| && n < count == |worlds|
    ensures Runs(s, steps)
    ensures var start := First(s.feed, s.offset);
            var updates := s.feed[start..start + count];
            Exec(s, steps) ==
            Handled(Drained(s, updates, worlds, n), updates[n], worlds[n].allowed, worlds[n].raises)
  {
    hide First, Exec, Runs, Drained;
    var start := First(s.feed, s.offset);
    var updates := s.feed[start..start + count];
    var before := IterationIsRun(s, count, worlds, n);
    DrainedKeeps(s, updates, worlds, n);
    var handle := Handle(worlds[n].allowed, worlds[n].raises);
    assert updates[n] == s.feed[start + n];
    Snoc(s, before, handle);
    Snoc(s, before + [handle], Interrupt);
    steps := before + [handle] + [Interrupt];
  }

  lemma {:induction false} Snoc(s: State, steps: seq<Step>, step: Step)
    requires Runs(s, steps) && Enabled(Exec(s, steps), step)
    ensures Runs(s, steps + [step]) && Exec(s, steps + [step]) == Apply(Exec(s, steps), step)
    decreases |steps|
  {
    if steps == [] {
      assert [] + [step] == [step];
      assert [step][1..] == [];
    } else {
      Snoc(Apply(s, steps[0]), steps[1..], step);
      assert (steps + [step])[1..] == steps[1..] + [step];
    }
  }
}
