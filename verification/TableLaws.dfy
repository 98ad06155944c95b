/** What the transactions come to: the columns they write, what the sweeps then select, and what is left of the week. */
module TableLaws {
  import opened Wrappers
  import opened Gatekeeper
  import opened Tables

  // ---- Rows ----

  /** The rows and items other than the named ones stay, and so do the log and the clock. */
  predicate OnlyRowWritten(a: Db, b: Db, id: nat) {
    && b.items == a.items && b.log == a.log && b.now == a.now && |b.inbox| == |a.inbox|
    && forall r :: 0 <= r < |a.inbox| && r != id ==> b.inbox[r] == a.inbox[r]
  }

  /** A message becomes a new last row exactly when no row has its update id. */
  lemma CaptureStores(db: Db, msg: Message)
    ensures var (after, id) := InsertRow(db, msg);
            var n := |db.inbox|;
            if msg.updateId.Some? && exists r :: 0 <= r < n && db.inbox[r].msg.updateId == msg.updateId then
              after == db && id.None?
            else
              && id == Some(n) && after == db.(inbox := after.inbox) && |after.inbox| == n + 1
              && after.inbox[..n] == db.inbox
              && var row := after.inbox[n];
                 && row.msg == msg && row.capturedAt == db.now
                 && row.processedAt.None? && row.audioPath.None? && row.error.None?
                 && row.rawText == (if msg.kind.Voice? then None else msg.text)
                 && row.status == (if msg.kind.Voice? then Pending else NotApplicable)
                 && (msg.kind.Voice? ==> row.source == "bale_voice")
                 && (msg.kind.Document? ==> row.source == "bale_document")
                 && (msg.kind.Text? || msg.kind.Unknown? ==>
                       row.source == if msg.isForward then "bale_forward" else "bale_text")
  {
    hide SourceOf;
    KindsOfSource(msg);
  }

  lemma KindsOfSource(msg: Message)
    ensures msg.kind.Voice? ==> SourceOf(msg) == "bale_voice"
    ensures msg.kind.Document? ==> SourceOf(msg) == "bale_document"
    ensures msg.kind.Text? || msg.kind.Unknown? ==>
              SourceOf(msg) == if msg.isForward then "bale_forward" else "bale_text"
  {
  }

  /** Of each row update, the columns it writes; it finds no row beyond the table. */
  lemma RowUpdates(db: Db, id: nat, text: string)
    ensures id >= |db.inbox| ==> MarkProcessed(db, id) == MarkFailed(db, id, text) == StoreAudio(db, id, text) == db
    ensures id >= |db.inbox| ==> StoreTranscript(db, id, text) == db
    ensures OnlyRowWritten(db, MarkProcessed(db, id), id) && OnlyRowWritten(db, MarkFailed(db, id, text), id)
    ensures OnlyRowWritten(db, StoreAudio(db, id, text), id) && OnlyRowWritten(db, StoreTranscript(db, id, text), id)
    ensures id < |db.inbox| ==>
              var row := db.inbox[id];
              && MarkProcessed(db, id).inbox[id] == row.(processedAt := Some(db.now))
              && MarkFailed(db, id, text).inbox[id] == row.(status := Failed, error := Some(text))
              && StoreAudio(db, id, text).inbox[id] == row.(audioPath := Some(text))
              && StoreTranscript(db, id, text).inbox[id] == row.(rawText := Some(text), status := Done)
  {
  }

  /** What the three sweeps select: what waits for more than ten minutes. */
  lemma SweepsSelect(db: Db, id: nat)
    ensures StuckPending(db, id) <==>
              id < |db.inbox| && db.inbox[id].status == Pending && db.now - db.inbox[id].capturedAt > 600
    ensures StuckUntriaged(db, id) <==>
              && id < |db.inbox| && db.inbox[id].status in [NotApplicable, Done] && db.inbox[id].processedAt == None
              && db.now - db.inbox[id].capturedAt > 600
    ensures StuckUnembedded(db, id) <==>
              id < |db.items| && !db.items[id].embedded && db.now - db.items[id].createdAt > 600
  {
  }

  // ---- Items ----

  /** No item but this one changes, and no row, log entry or clock. */
  predicate OnlyItemWritten(a: Db, b: Db, i: nat) {
    && b.inbox == a.inbox && b.log == a.log && b.now == a.now && |b.items| == |a.items|
    && forall k :: 0 <= k < |a.items| && k != i ==> b.items[k] == a.items[k]
  }

  /** The item comes last, open and unmarked, and its row is processed in the same transaction. */
  lemma CommitStores(db: Db, id: nat, draft: Draft)
    ensures var after, n := CommitItem(db, id, draft), |db.items|;
            && |after.items| == n + 1 && after.items[..n] == db.items
            && after.log == db.log && after.now == db.now && |after.inbox| == |db.inbox|
            && (var item := after.items[n];
                && item.inboxId == id && item.draft == draft && item.status == "open" && item.createdAt == db.now
                && item.duplicateOf.None? && !item.embedded && item.remindedAt.None?)
            && (forall r :: 0 <= r < |db.inbox| ==>
                  after.inbox[r] == if r == id then db.inbox[r].(processedAt := Some(db.now)) else db.inbox[r])
  {
  }

  /** Of each item update, the columns it writes. */
  lemma ItemUpdates(db: Db, i: nat, other: nat, title: string)
    ensures OnlyItemWritten(db, StoreEmbedding(db, i), i) && OnlyItemWritten(db, FlagDuplicate(db, i, other), i)
    ensures OnlyItemWritten(db, SetTitle(db, i, title), i) && OnlyItemWritten(db, MarkReminded(db, i), i)
    ensures i < |db.items| ==>
              var item := db.items[i];
              && StoreEmbedding(db, i).items[i] == item.(embedded := true)
              && FlagDuplicate(db, i, other).items[i] == item.(duplicateOf := Some(other))
              && SetTitle(db, i, title).items[i] == item.(draft := item.draft.(title := title))
              && MarkReminded(db, i).items[i] == item.(remindedAt := Some(db.now))
  {
  }

  /**
   A status change finds its item unless it is unknown or, when guarded, has that status already.
   Then it writes the status and nothing else of the tables, and completing an item that was
   declined or archived is logged with its decision and score.
   */
  lemma StatusChange(db: Db, i: nat, status: string, guarded: bool)
    ensures var after := ChangeStatus(db, i, status, guarded);
            var found := i < |db.items| && (guarded ==> db.items[i].status != status);
            && ChangesStatus(db, i, status, guarded) == found
            && (!found ==> after == db)
            && (found ==>
                  var d := db.items[i].draft;
                  && OnlyItemWritten(db, after.(log := db.log), i)
                  && after.items[i] == db.items[i].(status := status)
                  && after.log == if status == "done" && d.decision in ["decline", "archive"] then
                                    db.log + [LogEntry(i, d.decision, d.score, "completed_despite_" + d.decision)]
                                  else db.log)
  {
  }

  // ---- What is left of the week ----

  /** The effort of a task in minutes, as far as it has one. */
  function TaskEffort(d: Draft): int {
    if d.kind == "task" && d.effort.Some? then d.effort.value else 0
  }

  lemma {:induction false} CommittedSnoc(items: seq<Item>, item: Item)
    ensures CommittedMinutes(items + [item]) == CommittedMinutes(items) + Committed(item)
  {
    assert (items + [item])[..|items|] == items;
  }

  lemma {:induction false} CommittedUpdate(items: seq<Item>, i: nat, item: Item)
    requires i < |items|
    ensures CommittedMinutes(items[i := item]) == CommittedMinutes(items) - Committed(items[i]) + Committed(item)
  {
    hide Committed;
    var n := |items| - 1;
    if i < n {
      CommittedUpdate(items[..n], i, item);
      assert items[i := item][..n] == items[..n][i := item];
    } else {
      assert items[i := item][..n] == items[..n];
    }
  }

  /** With no items the whole week is left. */
  lemma WholeWeekLeft(db: Db, weekly: int)
    requires db.items == []
    ensures Remaining(db, weekly) == 60 * weekly
  {
  }

  /** Closing an open task, in whatever way, gives its effort back, and reopening it takes it again. */
  lemma StatusMovesRemaining(db: Db, i: nat, status: string, guarded: bool, weekly: int)
    requires i < |db.items|
    ensures var e, was := TaskEffort(db.items[i].draft), db.items[i].status;
            Remaining(ChangeStatus(db, i, status, guarded), weekly) ==
            Remaining(db, weekly) + (if was == "open" && status != "open" then e
                                     else if was != "open" && status == "open" then -e
                                     else 0)
  {
    hide CommittedMinutes;
    StatusChange(db, i, status, guarded);
    var item := db.items[i].(status := status);
    CommittedUpdate(db.items, i, item);
    var after := ChangeStatus(db, i, status, guarded);
    hide ChangeStatus, ChangesStatus;
    if after != db {
      assert after.items == db.items[i := item];
    }
  }

  /** A new task takes its effort, whatever was decided about it; other items and tasks without effort take nothing. */
  lemma CommitTakesRemaining(db: Db, id: nat, draft: Draft, weekly: int)
    ensures Remaining(CommitItem(db, id, draft), weekly) == Remaining(db, weekly) - TaskEffort(draft)
  {
    CommittedSnoc(db.items, Item(id, draft, OPEN, db.now, None, false, None));
    hide CommittedMinutes;
  }

  /** No other transaction changes what is left of the week. */
  lemma OthersKeepRemaining(db: Db, id: nat, other: nat, text: string, msg: Message, weekly: int)
    ensures Remaining(InsertRow(db, msg).0, weekly) == Remaining(MarkProcessed(db, id), weekly) == Remaining(db, weekly)
    ensures Remaining(MarkFailed(db, id, text), weekly) == Remaining(StoreAudio(db, id, text), weekly)
            == Remaining(StoreTranscript(db, id, text), weekly) == Remaining(db, weekly)
    ensures Remaining(StoreEmbedding(db, id), weekly) == Remaining(FlagDuplicate(db, id, other), weekly)
            == Remaining(SetTitle(db, id, text), weekly) == Remaining(MarkReminded(db, id), weekly)
            == Remaining(db, weekly)
  {
    hide CommittedMinutes;
    if id < |db.items| {
      CommittedUpdate(db.items, id, StoreEmbedding(db, id).items[id]);
      CommittedUpdate(db.items, id, FlagDuplicate(db, id, other).items[id]);
      CommittedUpdate(db.items, id, SetTitle(db, id, text).items[id]);
      CommittedUpdate(db.items, id, MarkReminded(db, id).items[id]);
    }
  }
}
