/**
 The code that updates the tables step by step: capture (app/capture.py), transcription
 (app/transcribe/orchestrator.py), triage (app/triage.py), recovery (app/recovery.py) and
 status changes (app/decisions_log.py), each proved against its specification.
 */
module App {
  import opened Wrappers
  import opened PyText
  import opened Gatekeeper
  import opened Tables
  import opened Pipeline
  import opened Jobs
  import opened Commands
  import ExactlyOnce

  /** What became of an update. */
  datatype Outcome =
    | Unparseable | NobodyAllowed | Disallowed | NoChat | Command
    | Refused                                            // an exception before anything was stored
    | Redelivered
    | Captured(id: nat, scheduled: Option<Job>)

  /** The gates of handle_update, in order; None lets the message through. */
  function Gate(update: Option<Message>, allowed: seq<int>): Option<Outcome> {
    if update.None? then Some(Unparseable)
    else if allowed == [] then Some(NobodyAllowed)
    else if update.value.userId !in allowed then Some(Disallowed)
    else if update.value.chatId.None? then Some(NoChat)
    else if update.value.text.Some? && "/" <= update.value.text.value then Some(Command)
    else None
  }

  /** The message comes from a listed user, has a chat to answer to, and is no command. */
  predicate Admitted(update: Option<Message>, allowed: seq<int>) {
    && update.Some? && update.value.userId in allowed && update.value.chatId.Some?
    && (update.value.text.Some? && update.value.text.value != "" ==> update.value.text.value[0] != '/')
  }

  /** The gates let through exactly the admitted messages, and name the first reason against another. */
  lemma GateIff(update: Option<Message>, allowed: seq<int>)
    ensures Gate(update, allowed).None? <==> Admitted(update, allowed)
    ensures Gate(update, allowed) == Some(Unparseable) <==> update.None?
    ensures Gate(update, allowed) == Some(NobodyAllowed) <==> update.Some? && allowed == []
    ensures Gate(update, allowed) == Some(Disallowed) <==>
              update.Some? && allowed != [] && update.value.userId !in allowed
    ensures Gate(update, allowed) == Some(NoChat) <==>
              update.Some? && update.value.userId in allowed && update.value.chatId.None?
    ensures Gate(update, allowed) == Some(Command) <==>
              && update.Some? && update.value.userId in allowed && update.value.chatId.Some?
              && !Admitted(update, allowed)
  {
  }

  class Application {
    var inbox: seq<Row>
    var items: seq<Item>
    var log: seq<LogEntry>
    var now: int

    constructor (now: int)
      ensures Contents() == Db([], [], [], now)
    {
      inbox, items, log := [], [], [];
      this.now := now;
    }

    function Contents(): Db
      reads this
    {
      Db(inbox, items, log, now)
    }

    // ---- Transactions ----

    /** _insert_inbox_row: no row for an update id that already has one. */
    method InsertInboxRow(source: string, rawText: Option<string>, status: Status, msg: Message)
      returns (id: Option<nat>)
      modifies this
      ensures id.None? <==> Tables.Captured(old(inbox), msg.updateId)
      ensures id.None? ==> Contents() == old(Contents())
      ensures id.Some? ==> id.value == |old(inbox)| && Contents() == old(Contents()).(
                inbox := old(inbox) + [Row(source, rawText, None, status, None, msg, old(now), None)])
    {
      if msg.updateId.Some? {
        for r := 0 to |inbox|
          invariant Contents() == old(Contents())
          invariant forall q :: 0 <= q < r ==> inbox[q].msg.updateId != msg.updateId
        {
          if inbox[r].msg.updateId == msg.updateId {
            return None;
          }
        }
      }
      id := Some(|inbox|);
      inbox := inbox + [Row(source, rawText, None, status, None, msg, now, None)];
    }

    method SetProcessed(id: nat)
      modifies this
      ensures Contents() == MarkProcessed(old(Contents()), id)
    {
      if id < |inbox| {
        inbox := inbox[id := inbox[id].(processedAt := Some(now))];
      }
    }

    method SetFailed(id: nat, error: string)
      modifies this
      ensures Contents() == MarkFailed(old(Contents()), id, error)
    {
      if id < |inbox| {
        inbox := inbox[id := inbox[id].(status := Failed, error := Some(error))];
      }
    }

    method SetAudio(id: nat, path: string)
      modifies this
      ensures Contents() == StoreAudio(old(Contents()), id, path)
    {
      if id < |inbox| {
        inbox := inbox[id := inbox[id].(audioPath := Some(path))];
      }
    }

    method SetTranscript(id: nat, text: string)
      modifies this
      ensures Contents() == StoreTranscript(old(Contents()), id, text)
    {
      if id < |inbox| {
        inbox := inbox[id := inbox[id].(rawText := Some(text), status := Done)];
      }
    }

    /** The insert and processed_at share one transaction. */
    method SaveItem(inboxId: nat, draft: Draft) returns (item: nat)
      modifies this
      ensures item == |old(items)| && Contents() == CommitItem(old(Contents()), inboxId, draft)
    {
      item := |items|;
      items := items + [Item(inboxId, draft, OPEN, now, None, false, None)];
      SetProcessed(inboxId);
    }

    method SetEmbedding(item: nat)
      modifies this
      ensures Contents() == StoreEmbedding(old(Contents()), item)
    {
      if item < |items| {
        items := items[item := items[item].(embedded := true)];
      }
    }

    method SetDuplicate(item: nat, other: nat)
      modifies this
      ensures Contents() == FlagDuplicate(old(Contents()), item, other)
    {
      if item < |items| {
        items := items[item := items[item].(duplicateOf := Some(other))];
      }
    }

    /** apply_status_change: the update and its log row share one transaction. */
    method ApplyStatusChange(item: nat, status: string, onlyIfDiffers: bool) returns (found: bool)
      modifies this
      ensures found == ChangesStatus(old(Contents()), item, status, onlyIfDiffers)
      ensures Contents() == ChangeStatus(old(Contents()), item, status, onlyIfDiffers)
    {
      if item >= |items| || (onlyIfDiffers && items[item].status == status) {
        return false;
      }
      items := items[item := items[item].(status := status)];
      var d := items[item].draft;
      if status == DONE && d.decision in OVERRIDDEN_DECISIONS {
        log := log + [LogEntry(item, d.decision, d.score, "completed_despite_" + d.decision)];
      }
      return true;
    }

    // ---- Capture ----

    /** dispatch: only "/done" changes the tables, through the guarded call, unless something raises first. */
    method Dispatch(text: string, raises: bool)
      modifies this
      ensures Contents() == if raises then old(Contents()) else CommandEffect(old(Contents()), text)
    {
      if raises {
        return;
      }
      var words := Words(Strip(text));
      if |words| < 2 || !IsDone(words[0]) || !IsDigits(words[1]) {
        return;
      }
      var item := ParseInt(words[1]);
      if item.Some? && item.value >= 0 {
        var _ := ApplyStatusChange(item.value, DONE, true);
      }
    }

    /**
     handle_update. `raises` covers every failure up to and including the transaction that would
     store something; when the reply raises, the row is kept and nothing is scheduled.
     */
    method HandleUpdate(
        update: Option<Message>, allowed: seq<int>, raises: bool, replyRaises: bool, hasBackend: bool)
      returns (outcome: Outcome)
      modifies this
      ensures var gate := Gate(update, allowed);
              if gate.Some? && !gate.value.Command? then
                outcome == gate.value && Contents() == old(Contents())
              else if gate.Some? && !raises then
                outcome == Command && Contents() == CommandEffect(old(Contents()), update.value.text.value)
              else if raises || !StorableMessage(update.value) then
                outcome == Refused && Contents() == old(Contents())
              else
                var inserted := InsertRow(old(Contents()), update.value);
                && Contents() == inserted.0
                && (inserted.1.None? ==> outcome == Redelivered)
                && (inserted.1.Some? ==>
                      && outcome.Captured? && outcome.id == inserted.1.value
                      && outcome.scheduled ==
                           if replyRaises || (update.value.kind.Voice? && !hasBackend) then None
                           else if update.value.kind.Voice? then Some(Transcribing(outcome.id, update.value))
                           else Some(Triaging(outcome.id, update.value.text)))
      ensures update.None? ==> outcome == Unparseable && Contents() == old(Contents())
      ensures update.Some? && allowed == [] ==> outcome == NobodyAllowed && Contents() == old(Contents())
      ensures update.Some? && allowed != [] && update.value.userId !in allowed ==>
                outcome == Disallowed && Contents() == old(Contents())
      ensures update.Some? && update.value.userId in allowed && update.value.chatId.None? ==>
                outcome == NoChat && Contents() == old(Contents())
      ensures update.Some? && update.value.text.Some? && "/" <= update.value.text.value ==> inbox == old(inbox)
      ensures !Admitted(update, allowed) ==> inbox == old(inbox) && !outcome.Captured?
      ensures Admitted(update, allowed) && update.value.text.Some? && '\0' in update.value.text.value ==>
                outcome == Refused && Contents() == old(Contents())
      ensures Admitted(update, allowed) && !raises && StorableMessage(update.value) ==>
                (outcome.Captured? <==> !Tables.Captured(old(inbox), update.value.updateId))
    {
      hide CommandEffect;
      GateIff(update, allowed);
      if update.Some? && update.value.text.Some? {
        CommandKeeps(Contents(), update.value.text.value);
      }
      if update.None? {
        return Unparseable;
      }
      var msg := update.value;
      if allowed == [] {
        return NobodyAllowed;
      }
      if msg.userId !in allowed {
        return Disallowed;
      }
      if msg.chatId.None? {
        return NoChat;
      }
      if msg.text.Some? && "/" <= msg.text.value {
        Dispatch(msg.text.value, raises);
        return if raises then Refused else Command;
      }
      if raises || !StorableMessage(msg) {
        return Refused;
      }
      var id: Option<nat>;
      var job: Job;
      if msg.kind.Voice? {
        id := InsertInboxRow("bale_voice", None, Pending, msg);
        job := if id.Some? then Transcribing(id.value, msg) else Closed;
      } else {
        var source :=
          if msg.kind.Document? then "bale_document" else if msg.isForward then "bale_forward" else "bale_text";
        id := InsertInboxRow(source, msg.text, NotApplicable, msg);
        job := if id.Some? then Triaging(id.value, msg.text) else Closed;
      }
      if id.None? {
        return Redelivered;
      }
      var schedules := !replyRaises && (!msg.kind.Voice? || hasBackend);
      outcome := Outcome.Captured(id.value, if schedules then Some(job) else None);
    }

    // ---- Triage ----

    /** remaining_capacity_hours in minutes: weekly capacity minus the open tasks. */
    method RemainingMinutes(weekly: int) returns (remaining: int)
      ensures remaining == Remaining(Contents(), weekly)
    {
      var committed := 0;
      for i := 0 to |items|
        invariant committed == CommittedMinutes(items[..i])
      {
        assert items[..i + 1][..i] == items[..i];
        if items[i].draft.kind == TASK && items[i].status == OPEN && items[i].draft.effort.Some? {
          committed := committed + items[i].draft.effort.value;
        }
      }
      assert items[..|items|] == items;
      remaining := 60 * weekly - committed;
    }

    method TriageInboxRow(id: nat, text: Option<string>, w: TriageWorld) returns (raised: bool)
      modifies this
      ensures (Contents(), raised) == TriageEffect(old(Contents()), id, text, w)
    {
      hide BeyondFloat;
      if w.enabled.Raised? {
        return true;
      }
      if !w.enabled.value {
        return false;
      }
      if text.None? || Strip(text.value) == [] {
        if w.markFails {
          return true;
        }
        SetProcessed(id);
        return false;
      }
      if w.configured.Raised? {
        return true;
      }
      if !w.configured.value {
        return false;
      }
      if w.weekly.Raised? || BeyondFloat(w.weekly.value) || w.answer.Raised? {
        return true;
      }
      var remaining := RemainingMinutes(w.weekly.value);
      if w.answer.value.None? {
        return false;
      }
      var draft := Judge(w.answer.value.value, text.value, remaining);
      if draft.Raised? || w.commitFails || !StorableDraft(draft.value) {
        return true;
      }
      var item := SaveItem(id, draft.value);
      raised := FollowUp(item, w);
    }

    /** The embedding and the duplicate check of a saved item. */
    method FollowUp(item: nat, w: TriageWorld) returns (raised: bool)
      modifies this
      ensures (Contents(), raised) == AfterCommit(old(Contents()), item, w)
    {
      if w.embedded.Raised? {
        return true;
      }
      if w.embedded.value {
        SetEmbedding(item);
      }
      if w.similar.Raised? {
        return true;
      }
      if w.similar.value.Some? && MayMatch(Contents(), item, w.similar.value.value) {
        if w.flagFails {
          return true;
        }
        SetDuplicate(item, w.similar.value.value);
      }
      return false;
    }

    // ---- Transcription ----

    /** _mark_failed and the message to the user. */
    method GiveUp(id: nat, error: string, w: AudioWorld, replyRaises: bool) returns (raised: bool)
      modifies this
      ensures (Contents(), raised) == FailEffect(old(Contents()), id, error, w, replyRaises)
    {
      if w.markFails || !StorableText(error) {
        return true;
      }
      SetFailed(id, error);
      raised := replyRaises;
    }

    method TranscribeVoiceJob(id: nat, msg: Message, w: AudioWorld) returns (raised: bool)
      modifies this
      ensures (Contents(), raised) == TranscribeEffect(old(Contents()), id, msg, w)
    {
      var replyRaises := w.repliesRaise && msg.chatId.Some?;
      if w.hasClient.Raised? {
        return true;
      }
      if !w.hasClient.value || msg.fileId.None? {
        raised := GiveUp(id, NO_FILE_ERROR, w, false);
        return;
      }
      if w.download.NoFile? {
        raised := GiveUp(id, w.error, w, replyRaises);
        return;
      }
      if w.download.Unwritable? || w.audioFails || !StorableText(w.download.path) {
        return true;
      }
      SetAudio(id, w.download.path);
      if w.transcript.None? {
        raised := GiveUp(id, w.error, w, replyRaises);
        return;
      }
      if w.transcriptFails || !StorableText(w.transcript.value) {
        return true;
      }
      SetTranscript(id, w.transcript.value);
      if replyRaises {
        return true;
      }
      raised := TriageInboxRow(id, Some(w.transcript.value), w.triage);
    }

    // ---- Recovery ----

    /** recover_stuck_transcriptions; without a backend or a client nothing is done. */
    method RecoverStuckTranscriptions(hasBackend: bool, hasClient: bool, worlds: nat -> AudioWorld)
      returns (recovered: Result<nat>)
      modifies this
      ensures var ids := PendingIds(old(Contents()), |old(inbox)|);
              if !hasBackend || !hasClient then recovered == Returned(0) && Contents() == old(Contents())
              else
                var swept := SweepTranscriptions(old(Contents()), worlds);
                Contents() == swept.0 && recovered == if swept.1 then Raised else Returned(|ids|)
    {
      var from := Contents();
      var ids := PendingIds(from, |inbox|);
      if ids == [] {
        return Returned(0);
      }
      if !hasBackend || !hasClient {
        return Returned(0);
      }
      var count := 0;
      for n := 0 to |ids|
        invariant count == n
        invariant (Contents(), false) == TranscribeAll(from, ids, worlds, n)
      {
        assert ids[n] in ids;
        var raised := TranscribeVoiceJob(ids[n], from.inbox[ids[n]].msg, worlds(ids[n]));
        if raised {
          RaisingStops(from, ids, worlds, n + 1);
          return Raised;
        }
        count := count + 1;
      }
      recovered := Returned(count);
    }

    /** recover_stuck_triage */
    method RecoverStuckTriage(worlds: nat -> TriageWorld) returns (recovered: Result<nat>)
      modifies this
      ensures var swept := SweepTriages(old(Contents()), worlds);
              && Contents() == swept.0
              && recovered == if swept.1 then Raised else Returned(|UntriagedIds(old(Contents()), |old(inbox)|)|)
    {
      var from := Contents();
      var ids := UntriagedIds(from, |inbox|);
      for n := 0 to |ids|
        invariant (Contents(), false) == TriageAll(from, ids, worlds, n)
      {
        assert ids[n] in ids;
        var raised := TriageInboxRow(ids[n], from.inbox[ids[n]].rawText, worlds(ids[n]));
        if raised {
          RaisingStopsTriage(from, ids, worlds, n + 1);
          return Raised;
        }
      }
      recovered := Returned(|ids|);
    }

    /**
     recover_missing_embeddings. What embed_item comes to for an item is `embeds`: it stores an
     embedding, it does not, or a settings read in it raises, which ends the sweep. The first
     `reached` of the selected items are through.
     */
    method RecoverMissingEmbeddings(embeds: nat -> Result<bool>) returns (recovered: Result<nat>, ghost reached: nat)
      modifies this
      ensures inbox == old(inbox) && log == old(log) && now == old(now)
      ensures |items| == |old(items)|
      ensures var ids := UnembeddedIds(old(Contents()), |old(items)|);
              && reached <= |ids|
              && (forall n :: 0 <= n < reached ==> embeds(ids[n]).Returned?)
              && (reached < |ids| ==> embeds(ids[reached]).Raised?)
              && recovered == (if reached < |ids| then Raised else Returned(|ids|))
              && forall i: nat :: i < |items| ==>
                   var was := old(items)[i];
                   var stored := i in ids[..reached] && !Blank(was.draft.title) && embeds(i) == Returned(true);
                   items[i] == if stored then was.(embedded := true) else was
    {
      hide Blank, StuckUnembedded;
      var ids := UnembeddedIds(Contents(), |items|);
      for n := 0 to |ids|
        invariant inbox == old(inbox) && log == old(log) && now == old(now) && |items| == |old(items)|
        invariant forall k :: 0 <= k < n ==> embeds(ids[k]).Returned?
        invariant forall i: nat :: i < |items| ==>
                    items[i] == if i in ids[..n] && !Blank(old(items)[i].draft.title) && embeds(i) == Returned(true)
                                then old(items)[i].(embedded := true) else old(items)[i]
      {
        assert ids[n] in ids;
        assert ids[..n + 1] == ids[..n] + [ids[n]];
        var embed := embeds(ids[n]);
        if embed.Raised? {
          return Raised, n;
        }
        if !Blank(items[ids[n]].draft.title) && embed.value {
          SetEmbedding(ids[n]);
        }
      }
      recovered, reached := Returned(|ids|), |ids|;
    }

    /** The recover button: all three sweeps; when every call returns, no old row is left waiting. */
    method Recover(audio: nat -> AudioWorld, triage: nat -> TriageWorld, embeds: nat -> Result<bool>)
      returns (ok: bool)
      modifies this
      ensures (forall r :: 0 <= r < |old(inbox)| ==>
                 AudioSucceeds(audio(r)) && TriageSucceeds(triage(r), old(inbox)[r].rawText)) ==>
                && |inbox| == |old(inbox)|
                && (forall r :: 0 <= r < |inbox| && Old(Contents(), inbox[r]) ==> ExactlyOnce.Rank(inbox[r]) == 0)
                && ((forall i :: embeds(i).Returned?) ==> ok)
    {
      if forall r :: 0 <= r < |inbox| ==> AudioSucceeds(audio(r)) && TriageSucceeds(triage(r), inbox[r].rawText) {
        FullSweepClears(Contents(), audio, triage);
      }
      var first := RecoverStuckTranscriptions(true, true, audio);
      if first.Raised? {
        return false;
      }
      var second := RecoverStuckTriage(triage);
      if second.Raised? {
        return false;
      }
      var third, _ := RecoverMissingEmbeddings(embeds);
      ok := third.Returned?;
    }
  }

  /** Once a job raises, the rest of the selection is left for a later sweep. */
  lemma {:induction false} RaisingStops(from: Db, ids: seq<nat>, worlds: nat -> AudioWorld, n: nat)
    requires n <= |ids| && forall id: nat :: id in ids ==> id < |from.inbox|
    requires TranscribeAll(from, ids, worlds, n).1
    ensures TranscribeAll(from, ids, worlds, |ids|) == TranscribeAll(from, ids, worlds, n)
    decreases |ids| - n
  {
    if n < |ids| {
      RaisingStops(from, ids, worlds, n + 1);
    }
  }

  lemma {:induction false} RaisingStopsTriage(from: Db, ids: seq<nat>, worlds: nat -> TriageWorld, n: nat)
    requires n <= |ids| && forall id: nat :: id in ids ==> id < |from.inbox|
    requires TriageAll(from, ids, worlds, n).1
    ensures TriageAll(from, ids, worlds, |ids|) == TriageAll(from, ids, worlds, n)
    decreases |ids| - n
  {
    if n < |ids| {
      RaisingStopsTriage(from, ids, worlds, n + 1);
    }
  }
}
