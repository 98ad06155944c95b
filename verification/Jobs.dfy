/**
 The background jobs run from start to end without interruption, as the recovery sweeps run
 them, and their place in the step system.
 */
module Jobs {
  import opened Wrappers
  import opened PyText
  import opened Gatekeeper
  import opened Tables
  import opened Pipeline
  import opened PipelineSafety
  import opened ExactlyOnce

  /**
   What one triage meets, call by call; `Raised` stands for a settings read, a query or a model
   client that raises, and the `...Fails` fields for a transaction that does. `answer` is None
   when the model call reports an error. The calls inside embed_item and find_similar_open_item
   that are caught there appear only by their result.
   */
  datatype TriageWorld = TriageWorld(
    enabled: Result<bool>, markFails: bool,
    configured: Result<bool>, weekly: Result<int>, answer: Result<Option<Answer>>, commitFails: bool,
    embedded: Result<bool>, similar: Result<Option<nat>>, flagFails: bool)

  const TWO_97: int := 0x2_0000_0000_0000_0000_0000_0000
  const TWO_485: int := TWO_97 * TWO_97 * TWO_97 * TWO_97 * TWO_97
  /** 2^1024 - 2^970: from here on an integer has no float. */
  const FLOAT_LIMIT: int := 0x3f_ffff_ffff_ffff * TWO_485 * TWO_485

  /** The subtraction in remaining_capacity_hours raises OverflowError. */
  predicate BeyondFloat(hours: int) {
    hours >= FLOAT_LIMIT || hours <= -FLOAT_LIMIT
  }

  datatype Download = NoFile | Unwritable | Saved(path: string)

  /** What one transcription meets; no transcript means the backend failed. */
  datatype AudioWorld = AudioWorld(
    hasClient: Result<bool>, download: Download, audioFails: bool,
    transcript: Option<string>, transcriptFails: bool, error: string, markFails: bool,
    repliesRaise: bool, triage: TriageWorld)

  /** The tables afterwards, and whether the job raised. */
  type Effect = (Db, bool)

  const NO_FILE_ERROR := "no provider configured or missing file_id"

  /** find_similar_open_item may name `other` for this item. */
  predicate MayMatch(db: Db, item: nat, other: nat) {
    && other != item && item < |db.items| && other < |db.items|
    && db.items[other].status == OPEN && db.items[other].embedded && db.items[item].embedded
  }

  /** What follows the commit: the embedding and the duplicate flag. */
  function AfterCommit(db: Db, item: nat, w: TriageWorld): Effect {
    if w.embedded.Raised? then (db, true)
    else
      var embedded := if w.embedded.value then StoreEmbedding(db, item) else db;
      if w.similar.Raised? then (embedded, true)
      else if w.similar.value.None? || !MayMatch(embedded, item, w.similar.value.value) then (embedded, false)
      else if w.flagFails then (embedded, true)
      else (FlagDuplicate(embedded, item, w.similar.value.value), false)
  }

  /** The answer has come; `remaining` was read before it was asked for. */
  function Conclude(db: Db, id: nat, text: string, a: Answer, remaining: int, w: TriageWorld): Effect {
    match Judge(a, text, remaining)
    case Raised => (db, true)
    case Returned(draft) =>
      if w.commitFails || !StorableDraft(draft) then (db, true)
      else AfterCommit(CommitItem(db, id, draft), |db.items|, w)
  }

  function TriageEffect(db: Db, id: nat, text: Option<string>, w: TriageWorld): Effect {
    if w.enabled.Raised? then (db, true)
    else if !w.enabled.value then (db, false)
    else if !HasText(text) then (if w.markFails then (db, true) else (MarkProcessed(db, id), false))
    else if w.configured.Raised? then (db, true)
    else if !w.configured.value then (db, false)
    else if w.weekly.Raised? || BeyondFloat(w.weekly.value) || w.answer.Raised? then (db, true)
    else if w.answer.value.None? then (db, false)
    else Conclude(db, id, text.value, w.answer.value.value, Remaining(db, w.weekly.value), w)
  }

  /** The row is marked as failed and the user is told. */
  function FailEffect(db: Db, id: nat, error: string, w: AudioWorld, replyRaises: bool): Effect {
    if w.markFails || !StorableText(error) then (db, true) else (MarkFailed(db, id, error), replyRaises)
  }

  function TranscribeEffect(db: Db, id: nat, msg: Message, w: AudioWorld): Effect {
    var replyRaises := w.repliesRaise && msg.chatId.Some?;
    if w.hasClient.Raised? then (db, true)
    else if !w.hasClient.value || msg.fileId.None? then FailEffect(db, id, NO_FILE_ERROR, w, false)
    else
      match w.download
      case NoFile => FailEffect(db, id, w.error, w, replyRaises)
      case Unwritable => (db, true)
      case Saved(path) =>
        if w.audioFails || !StorableText(path) then (db, true)
        else
          var stored := StoreAudio(db, id, path);
          match w.transcript
          case None => FailEffect(stored, id, w.error, w, replyRaises)
          case Some(text) =>
            if w.transcriptFails || !StorableText(text) then (stored, true)
            else
              var done := StoreTranscript(stored, id, text);
              if replyRaises then (done, true) else TriageEffect(done, id, Some(text), w.triage)
  }

  // ---- Sweeps: rows are selected once, then handled in order until one raises ----

  function PendingIds(db: Db, n: nat): (ids: seq<nat>)
    ensures forall id: nat :: id in ids <==> id < n && StuckPending(db, id)
    ensures forall i, j :: 0 <= i < j < |ids| ==> ids[i] != ids[j]
  {
    if n == 0 then []
    else
      var rest := PendingIds(db, n - 1);
      if StuckPending(db, n - 1) then rest + [n - 1] else rest
  }

  function UntriagedIds(db: Db, n: nat): (ids: seq<nat>)
    ensures forall id: nat :: id in ids <==> id < n && StuckUntriaged(db, id)
    ensures forall i, j :: 0 <= i < j < |ids| ==> ids[i] != ids[j]
  {
    if n == 0 then []
    else
      var rest := UntriagedIds(db, n - 1);
      if StuckUntriaged(db, n - 1) then rest + [n - 1] else rest
  }

  function UnembeddedIds(db: Db, n: nat): (ids: seq<nat>)
    ensures forall id: nat :: id in ids <==> id < n && StuckUnembedded(db, id)
    ensures forall i, j :: 0 <= i < j < |ids| ==> ids[i] != ids[j]
  {
    if n == 0 then []
    else
      var rest := UnembeddedIds(db, n - 1);
      if StuckUnembedded(db, n - 1) then rest + [n - 1] else rest
  }

  /** The first n selected rows handled; `from` is the table the rows were selected from. */
  function TranscribeAll(from: Db, ids: seq<nat>, worlds: nat -> AudioWorld, n: nat): Effect
    requires n <= |ids| && forall id: nat :: id in ids ==> id < |from.inbox|
  {
    if n == 0 then (from, false)
    else
      var before := TranscribeAll(from, ids, worlds, n - 1);
      var id := ids[n - 1];
      assert id in ids;
      if before.1 then before else TranscribeEffect(before.0, id, from.inbox[id].msg, worlds(id))
  }

  function TriageAll(from: Db, ids: seq<nat>, worlds: nat -> TriageWorld, n: nat): Effect
    requires n <= |ids| && forall id: nat :: id in ids ==> id < |from.inbox|
  {
    if n == 0 then (from, false)
    else
      var before := TriageAll(from, ids, worlds, n - 1);
      var id := ids[n - 1];
      assert id in ids;
      if before.1 then before else TriageEffect(before.0, id, from.inbox[id].rawText, worlds(id))
  }

  function SweepTranscriptions(db: Db, worlds: nat -> AudioWorld): Effect {
    var ids := PendingIds(db, |db.inbox|);
    TranscribeAll(db, ids, worlds, |ids|)
  }

  function SweepTriages(db: Db, worlds: nat -> TriageWorld): Effect {
    var ids := UntriagedIds(db, |db.inbox|);
    TriageAll(db, ids, worlds, |ids|)
  }

  // ---- A sweep whose calls succeed clears every old row ----

  /** Triage is switched on and every call of it returns what it is asked for. */
  predicate TriageSucceeds(w: TriageWorld, text: Option<string>) {
    && w.enabled == Returned(true) && !w.markFails && w.configured == Returned(true)
    && w.weekly.Returned? && !BeyondFloat(w.weekly.value) && w.answer.Returned? && w.answer.value.Some?
    && !Unreadable(w.answer.value.value.effort) && !Unreadable(w.answer.value.value.score)
    && (text.Some? ==> !Unstorable(w.answer.value.value, text.value))
    && !w.commitFails && w.embedded.Returned? && w.similar.Returned? && !w.flagFails
  }

  /** Every call of the job returns; the download or the backend may still have failed. */
  predicate AudioSucceeds(w: AudioWorld) {
    && w.hasClient == Returned(true) && !w.download.Unwritable? && !w.audioFails && !w.transcriptFails && !w.markFails
    && (w.download.Saved? ==> StorableText(w.download.path)) && StorableOption(w.transcript) && StorableText(w.error)
    && !w.repliesRaise && TriageSucceeds(w.triage, w.transcript)
  }

  /** A job on row id leaves all other rows and the clock alone. */
  predicate OnlyRow(a: Db, b: Db, id: nat) {
    && |a.inbox| == |b.inbox| && a.now == b.now
    && (forall r :: 0 <= r < |a.inbox| && r != id ==> b.inbox[r] == a.inbox[r])
    && (id < |a.inbox| ==> b.inbox[id].capturedAt == a.inbox[id].capturedAt)
  }

  lemma AfterCommitKeeps(db: Db, item: nat, w: TriageWorld)
    requires item < |db.items|
    ensures var after := AfterCommit(db, item, w).0;
            && after.inbox == db.inbox && after.log == db.log && after.now == db.now && |after.items| == |db.items|
            && (forall i :: 0 <= i < |db.items| && i != item ==> after.items[i] == db.items[i])
            && after.items[item].inboxId == db.items[item].inboxId
  {
  }

  lemma TriageOnlyRow(db: Db, id: nat, text: Option<string>, w: TriageWorld)
    ensures OnlyRow(db, TriageEffect(db, id, text, w).0, id)
    ensures id < |db.inbox| && TriageSucceeds(w, text) && !db.inbox[id].status.Pending? ==>
              !TriageEffect(db, id, text, w).1 && Rank(TriageEffect(db, id, text, w).0.inbox[id]) == 0
  {
    hide BeyondFloat, Blank, Judge, CommittedMinutes, Unstorable, StorableDraft, Unreadable;
    if w.answer.Returned? && w.answer.value.Some? && w.weekly.Returned? && HasText(text) {
      var a, remaining := w.answer.value.value, Remaining(db, w.weekly.value);
      JudgeRaises(a, text.value, remaining);
      if Judge(a, text.value, remaining).Returned? {
        var draft := Judge(a, text.value, remaining).value;
        StorableIff(a, text.value, remaining);
        AfterCommitKeeps(CommitItem(db, id, draft), |db.items|, w);
      }
    }
  }

  /** Triage gets as far as its answer. */
  predicate Answered(text: Option<string>, w: TriageWorld) {
    && w.enabled == Returned(true) && HasText(text) && w.configured == Returned(true)
    && w.weekly.Returned? && !BeyondFloat(w.weekly.value) && w.answer.Returned? && w.answer.value.Some?
  }

  /** The answer is accepted and its item stored. */
  predicate Stores(text: Option<string>, w: TriageWorld) {
    && Answered(text, w) && !w.commitFails
    && var a := w.answer.value.value;
       !Unreadable(a.effort) && !Unreadable(a.score) && !Unstorable(a, text.value)
  }

  /** The first n items and the log are left alone. */
  predicate Keeps(a: Db, b: Db) {
    b.log == a.log && |a.items| <= |b.items| <= |a.items| + 1 && b.items[..|a.items|] == a.items
  }

  lemma ConcludeCases(db: Db, id: nat, text: string, w: TriageWorld)
    requires Answered(Some(text), w)
    ensures var a, remaining := w.answer.value.value, Remaining(db, w.weekly.value);
            if Stores(Some(text), w) then
              && Judge(a, text, remaining).Returned?
              && TriageEffect(db, id, Some(text), w) ==
                   AfterCommit(CommitItem(db, id, Judge(a, text, remaining).value), |db.items|, w)
            else TriageEffect(db, id, Some(text), w) == (db, true)
  {
    hide BeyondFloat, Judge, Blank, CommittedMinutes, Unreadable, Unstorable, StorableDraft, AfterCommit, CommitItem;
    var a, remaining := w.answer.value.value, Remaining(db, w.weekly.value);
    JudgeRaises(a, text, remaining);
    if Judge(a, text, remaining).Returned? {
      StorableIff(a, text, remaining);
    }
  }

  /**
   A triage leaves every earlier item and the log alone. It adds at most one item, open and for
   its own row, with the draft judged from the answer, the text and what was left of the week. The
   item is flagged as a duplicate exactly when it is embedded, the search names an earlier open,
   embedded item, and the flag can be written. A triage adds its item exactly when there is text,
   it is configured, the answer can be read and stored, and the commit goes through.
   */
  lemma TriageAddsItsItem(db: Db, id: nat, text: Option<string>, w: TriageWorld)
    ensures var after, n := TriageEffect(db, id, text, w).0, |db.items|;
            && Keeps(db, after)
            && (|after.items| > n <==> Stores(text, w))
            && (|after.items| > n ==>
                  var item := after.items[n];
                  && item.inboxId == id && item.status == "open" && item.remindedAt.None? && item.createdAt == db.now
                  && Judge(w.answer.value.value, text.value, Remaining(db, w.weekly.value)) == Returned(item.draft)
                  && (item.embedded <==> w.embedded == Returned(true))
                  && (item.duplicateOf.Some? ==> w.similar == Returned(item.duplicateOf))
                  && (item.duplicateOf.Some? <==>
                        && w.embedded == Returned(true) && !w.flagFails && w.similar.Returned? && w.similar.value.Some?
                        && w.similar.value.value < n
                        && db.items[w.similar.value.value].status == "open"
                        && db.items[w.similar.value.value].embedded))
  {
    hide BeyondFloat, Blank, Judge, CommittedMinutes, Unreadable, Unstorable, StorableDraft;
    if Answered(text, w) {
      ConcludeCases(db, id, text.value, w);
      hide TriageEffect, Conclude;
    }
  }

  /**
   Never half done: on an unprocessed row with text, whatever fails, an item appears exactly when
   the row becomes processed. A row that a failure leaves unprocessed is otherwise unchanged, so
   the next sweep finds it as it was.
   */
  lemma ItemIffProcessed(db: Db, id: nat, text: Option<string>, w: TriageWorld)
    requires id < |db.inbox| && db.inbox[id].processedAt.None? && HasText(text)
    ensures var after := TriageEffect(db, id, text, w).0;
            && id < |after.inbox|
            && (|after.items| > |db.items| <==> after.inbox[id].processedAt.Some?)
            && (after.inbox[id].processedAt.None? ==> after == db)
  {
    hide BeyondFloat, Blank, Judge, CommittedMinutes, Unreadable, Unstorable, StorableDraft;
    if Answered(text, w) {
      ConcludeCases(db, id, text.value, w);
      hide TriageEffect, Conclude;
    }
  }

  lemma TranscribeOnlyRow(db: Db, id: nat, msg: Message, w: AudioWorld)
    ensures OnlyRow(db, TranscribeEffect(db, id, msg, w).0, id)
    ensures id < |db.inbox| && AudioSucceeds(w) ==>
              !TranscribeEffect(db, id, msg, w).1 && Rank(TranscribeEffect(db, id, msg, w).0.inbox[id]) == 0
  {
    hide TriageEffect, TriageSucceeds, StorableText;
    ErrorIsStorable();
    if w.download.Saved? && w.transcript.Some? {
      var done := StoreTranscript(StoreAudio(db, id, w.download.path), id, w.transcript.value);
      TriageOnlyRow(done, id, w.transcript, w.triage);
    }
  }

  lemma ErrorIsStorable()
    ensures StorableText(NO_FILE_ERROR)
  {
  }

  /**
   Switched off, not configured, or without an answer, a triage leaves the tables for the next
   sweep. A row with nothing but spaces is processed without an item.
   */
  lemma TriageWithoutItem(db: Db, id: nat, text: Option<string>, w: TriageWorld)
    requires w.enabled.Returned?
    ensures !w.enabled.value ==> TriageEffect(db, id, text, w) == (db, false)
    ensures w.enabled.value && !w.markFails && (text.None? || AllSpaces(text.value)) ==>
              && TriageEffect(db, id, text, w) == (MarkProcessed(db, id), false)
              && (id < |db.inbox| ==> TriageEffect(db, id, text, w).0.inbox[id].processedAt == Some(db.now))
    ensures text.Some? && !AllSpaces(text.value) && w.configured == Returned(false) ==>
              TriageEffect(db, id, text, w) == (db, false)
    ensures text.Some? && !AllSpaces(text.value) && w.answer == Returned(None) ==> TriageEffect(db, id, text, w).0 == db
  {
    hide BeyondFloat, Strip;
    if text.Some? {
      BlankIffAllSpaces(text.value);
    }
  }

  /**
   What a transcription leaves in its row, when nothing but the download or the backend fails: the
   text and the audio, or the error with the audio as far as there is any.
   */
  lemma TranscribedRow(db: Db, id: nat, msg: Message, w: AudioWorld)
    requires id < |db.inbox| && AudioSucceeds(w)
    ensures var was, row := db.inbox[id], TranscribeEffect(db, id, msg, w).0.inbox[id];
            if msg.fileId.Some? && w.download.Saved? && w.transcript.Some? then
              && row.status == Done && row.rawText == w.transcript && row.audioPath == Some(w.download.path)
              && row.error == was.error && row.processedAt == Some(db.now)
            else
              && row.status == Failed && row.rawText == was.rawText && row.processedAt == was.processedAt
              && row.error == Some(if msg.fileId.None? then "no provider configured or missing file_id" else w.error)
              && row.audioPath == if msg.fileId.Some? && w.download.Saved? then Some(w.download.path) else was.audioPath
  {
    ErrorIsStorable();
    hide BeyondFloat, Blank, Judge, CommittedMinutes, Unreadable, Unstorable, StorableDraft, StorableText, AfterCommit;
    if msg.fileId.Some? && w.download.Saved? && w.transcript.Some? {
      var done := StoreTranscript(StoreAudio(db, id, w.download.path), id, w.transcript.value);
      TriageRowAfter(done, id, w.transcript.value, w.triage);
      hide TriageEffect;
    }
  }

  /** A triage whose calls return marks its row as processed and leaves the other columns alone. */
  lemma TriageRowAfter(db: Db, id: nat, text: string, w: TriageWorld)
    requires id < |db.inbox| && TriageSucceeds(w, Some(text))
    ensures id < |TriageEffect(db, id, Some(text), w).0.inbox|
    ensures TriageEffect(db, id, Some(text), w).0.inbox[id] == db.inbox[id].(processedAt := Some(db.now))
  {
    hide BeyondFloat, Blank, Judge, CommittedMinutes, Unreadable, Unstorable, StorableDraft;
    if HasText(Some(text)) {
      ConcludeCases(db, id, text, w);
      var draft := Judge(w.answer.value.value, text, Remaining(db, w.weekly.value)).value;
      AfterCommitKeeps(CommitItem(db, id, draft), |db.items|, w);
      hide TriageEffect, Conclude, AfterCommit;
    }
  }

  // ---- When the jobs raise ----

  /** After its item was stored: the settings of the embedding or of the duplicate check, or the flag. */
  predicate FollowUpRaises(db: Db, w: TriageWorld) {
    || w.embedded.Raised? || w.similar.Raised?
    || (w.flagFails && w.embedded.value && w.similar.value.Some? && w.similar.value.value < |db.items|
        && db.items[w.similar.value.value].status == OPEN && db.items[w.similar.value.value].embedded)
  }

  /**
   The triage raises: a call that it reaches raises, the weekly capacity has no float, the answer
   holds a number that cannot be read or a row that cannot be stored, or a transaction that it
   reaches fails.
   */
  predicate TriageRaises(db: Db, text: Option<string>, w: TriageWorld) {
    || w.enabled.Raised?
    || (w.enabled.value && !HasText(text) && w.markFails)
    || (w.enabled.value && HasText(text) && w.configured.Raised?)
    || (w.enabled.value && HasText(text) && w.configured.value
        && (w.weekly.Raised? || BeyondFloat(w.weekly.value) || w.answer.Raised?))
    || (Answered(text, w) && !Stores(text, w))
    || (Stores(text, w) && FollowUpRaises(db, w))
  }

  lemma TriageRaisesIff(db: Db, id: nat, text: Option<string>, w: TriageWorld)
    ensures TriageEffect(db, id, text, w).1 <==> TriageRaises(db, text, w)
  {
    hide BeyondFloat, Blank, Judge, CommittedMinutes, Unreadable, Unstorable, StorableDraft;
    if Answered(text, w) {
      ConcludeCases(db, id, text.value, w);
      hide TriageEffect, Conclude, Stores;
    }
  }

  /** The job gets to mark its row as failed: no client or file, no audio, or no transcript. */
  predicate GivesUp(msg: Message, w: AudioWorld) {
    && w.hasClient.Returned?
    && (|| !w.hasClient.value || msg.fileId.None? || w.download.NoFile?
        || (KeepsAudio(msg, w) && w.transcript.None?))
  }

  predicate KeepsAudio(msg: Message, w: AudioWorld) {
    && w.hasClient == Returned(true) && msg.fileId.Some?
    && w.download.Saved? && !w.audioFails && StorableText(w.download.path)
  }

  predicate HasFile(msg: Message, w: AudioWorld) {
    w.hasClient == Returned(true) && msg.fileId.Some?
  }

  /**
   Exactly when the transcription job raises: looking for the client raises; or the audio cannot
   be written or recorded; or the row cannot be marked as failed; or the transcript cannot be
   stored; or a reply fails; or the triage of the transcript raises.
   */
  lemma TranscribeRaisesIff(db: Db, id: nat, msg: Message, w: AudioWorld)
    ensures TranscribeEffect(db, id, msg, w).1 <==>
            || w.hasClient.Raised?
            || (HasFile(msg, w) && !w.download.NoFile? && !KeepsAudio(msg, w))
            || (GivesUp(msg, w) && (w.markFails || (HasFile(msg, w) && !StorableText(w.error))))
            || (KeepsAudio(msg, w) && w.transcript.Some? && (w.transcriptFails || !StorableText(w.transcript.value)))
            || (HasFile(msg, w) && (w.download.NoFile? || KeepsAudio(msg, w)) && w.repliesRaise && msg.chatId.Some?)
            || (KeepsAudio(msg, w) && w.transcript.Some? && TriageRaises(db, w.transcript, w.triage))
  {
    hide TriageEffect, TriageRaises, StorableText;
    ErrorIsStorable();
    if w.download.Saved? && w.transcript.Some? {
      var done := StoreTranscript(StoreAudio(db, id, w.download.path), id, w.transcript.value);
      TriageRaisesIff(done, id, w.transcript, w.triage);
      SameItemsSameRaise(db, done, w.transcript, w.triage);
    }
  }

  lemma SameItemsSameRaise(a: Db, b: Db, text: Option<string>, w: TriageWorld)
    requires a.items == b.items
    ensures TriageRaises(a, text, w) == TriageRaises(b, text, w)
  {
    hide Answered, Stores, HasText, BeyondFloat;
  }

  lemma {:induction false} TranscribeAllSettles(from: Db, ids: seq<nat>, worlds: nat -> AudioWorld, n: nat)
    requires n <= |ids| && forall id: nat :: id in ids ==> id < |from.inbox|
    requires forall i, j :: 0 <= i < j < |ids| ==> ids[i] != ids[j]
    requires forall id: nat :: id in ids ==> AudioSucceeds(worlds(id))
    ensures var after := TranscribeAll(from, ids, worlds, n);
            && !after.1 && |after.0.inbox| == |from.inbox| && after.0.now == from.now
            && (forall r :: 0 <= r < |from.inbox| && r !in ids[..n] ==> after.0.inbox[r] == from.inbox[r])
            && (forall r :: 0 <= r < |from.inbox| && r in ids[..n] ==> Rank(after.0.inbox[r]) == 0)
  {
    hide TranscribeEffect, AudioSucceeds, Rank;
    if n > 0 {
      var id := ids[n - 1];
      assert id in ids;
      TranscribeAllSettles(from, ids, worlds, n - 1);
      var before := TranscribeAll(from, ids, worlds, n - 1).0;
      assert id !in ids[..n - 1];
      TranscribeOnlyRow(before, id, from.inbox[id].msg, worlds(id));
      assert ids[..n] == ids[..n - 1] + [id];
    }
  }

  lemma {:induction false} TriageAllSettles(from: Db, ids: seq<nat>, worlds: nat -> TriageWorld, n: nat)
    requires n <= |ids| && forall id: nat :: id in ids ==> id < |from.inbox|
    requires forall i, j :: 0 <= i < j < |ids| ==> ids[i] != ids[j]
    requires forall id: nat :: id in ids ==>
               TriageSucceeds(worlds(id), from.inbox[id].rawText) && !from.inbox[id].status.Pending?
    ensures var after := TriageAll(from, ids, worlds, n);
            && !after.1 && |after.0.inbox| == |from.inbox| && after.0.now == from.now
            && (forall r :: 0 <= r < |from.inbox| && r !in ids[..n] ==> after.0.inbox[r] == from.inbox[r])
            && (forall r :: 0 <= r < |from.inbox| && r in ids[..n] ==> Rank(after.0.inbox[r]) == 0)
  {
    hide TriageEffect, TriageSucceeds, Rank;
    if n > 0 {
      var id := ids[n - 1];
      assert id in ids;
      TriageAllSettles(from, ids, worlds, n - 1);
      var before := TriageAll(from, ids, worlds, n - 1).0;
      assert id !in ids[..n - 1];
      TriageOnlyRow(before, id, from.inbox[id].rawText, worlds(id));
      assert ids[..n] == ids[..n - 1] + [id];
    }
  }

  /**
   On any tables, one full recovery pass whose calls all return leaves no row older than ten
   minutes that still needs work: it is transcribed and triaged, or marked as failed.
   */
  lemma FullSweepClears(db: Db, audio: nat -> AudioWorld, triage: nat -> TriageWorld)
    requires forall r :: 0 <= r < |db.inbox| ==>
               AudioSucceeds(audio(r)) && TriageSucceeds(triage(r), db.inbox[r].rawText)
    ensures var first := SweepTranscriptions(db, audio);
            var second := SweepTriages(first.0, triage);
            && !first.1 && !second.1
            && |second.0.inbox| == |db.inbox|
            && forall r :: 0 <= r < |db.inbox| && Old(second.0, second.0.inbox[r]) ==> Rank(second.0.inbox[r]) == 0
  {
    var pending := PendingIds(db, |db.inbox|);
    TranscribeAllSettles(db, pending, audio, |pending|);
    assert pending[..|pending|] == pending;
    var middle := SweepTranscriptions(db, audio).0;
    var untriaged := UntriagedIds(middle, |middle.inbox|);
    TriageAllSettles(middle, untriaged, triage, |untriaged|);
    assert untriaged[..|untriaged|] == untriaged;
    var last := SweepTriages(middle, triage).0;
    forall r | 0 <= r < |db.inbox| && Old(last, last.inbox[r])
      ensures Rank(last.inbox[r]) == 0
    {
      if r !in untriaged && r !in pending {
        assert last.inbox[r] == db.inbox[r];
        assert !StuckPending(db, r) && !StuckUntriaged(middle, r);
      } else if r !in untriaged {
        assert Rank(middle.inbox[r]) == 0;
      }
    }
  }

  // ---- The jobs are runs of the step system ----

  lemma {:induction false} NothingRuns(s: State)
    ensures Runs(s, []) && Exec(s, []) == s
  {
  }

  /** A triage that runs from start to end, with no step of another job in between. */
  lemma TriageIsRun(s: State, j: nat, w: TriageWorld) returns (steps: seq<Step>)
    requires j < |s.jobs| && s.jobs[j].Triaging?
    ensures Runs(s, steps)
    ensures Exec(s, steps).db == TriageEffect(s.db, s.jobs[j].row, s.jobs[j].raw, w).0
  {
    hide BeyondFloat, Judge, Blank, Runs, Exec, Unreadable, Unstorable, CommittedMinutes;
    var text := s.jobs[j].raw;
    NothingRuns(s);
    steps := [];
    if w.enabled == Returned(true) && !HasText(text) && !w.markFails {
      RunsSnoc(s, [], SkipBlank(j));
      steps := [] + [SkipBlank(j)];
    } else if Answered(text, w) {
      ConcludeCases(s.db, s.jobs[j].row, text.value, w);
      if Stores(text, w) {
        steps := StoringIsRun(s, j, w);
      }
    }
  }

  lemma StoringIsRun(s: State, j: nat, w: TriageWorld) returns (steps: seq<Step>)
    requires j < |s.jobs| && s.jobs[j].Triaging? && Stores(s.jobs[j].raw, w)
    requires Judge(w.answer.value.value, s.jobs[j].raw.value, Remaining(s.db, w.weekly.value)).Returned?
    ensures Runs(s, steps)
    ensures Exec(s, steps).db ==
            var draft := Judge(w.answer.value.value, s.jobs[j].raw.value, Remaining(s.db, w.weekly.value)).value;
            AfterCommit(CommitItem(s.db, s.jobs[j].row, draft), |s.db.items|, w).0
  {
    var a, text := w.answer.value.value, s.jobs[j].raw.value;
    StorableIff(a, text, Remaining(s.db, w.weekly.value));
    hide BeyondFloat, Judge, Blank, Runs, Exec, Unreadable, Unstorable, CommittedMinutes, StorableDraft;
    NothingRuns(s);
    RunsSnoc(s, [], Snapshot(j, w.weekly.value));
    steps := [] + [Snapshot(j, w.weekly.value)];
    RunsSnoc(s, steps, Decide(j, a));
    steps := steps + [Decide(j, a)];
    if w.embedded.Returned? {
      var rest := FollowUpIsRun(Exec(s, steps), j, |s.db.items|, w);
      RunsCompose(s, steps, rest);
      steps := steps + rest;
    }
  }

  lemma FollowUpIsRun(s: State, j: nat, item: nat, w: TriageWorld) returns (steps: seq<Step>)
    requires j < |s.jobs| && s.jobs[j] == Embedding(item) && item < |s.db.items| && w.embedded.Returned?
    ensures Runs(s, steps) && Exec(s, steps).db == AfterCommit(s.db, item, w).0
  {
    hide Runs, Exec;
    NothingRuns(s);
    RunsSnoc(s, [], Embed(j, w.embedded.value));
    steps := [] + [Embed(j, w.embedded.value)];
    if w.similar.Returned? && w.similar.value.Some? && !w.flagFails {
      if MayMatch(Exec(s, steps).db, item, w.similar.value.value) {
        RunsSnoc(s, steps, Match(j, w.similar.value.value));
        steps := steps + [Match(j, w.similar.value.value)];
      }
    }
  }

  lemma TranscribeIsRun(s: State, j: nat, w: AudioWorld) returns (steps: seq<Step>)
    requires j < |s.jobs| && s.jobs[j].Transcribing?
    ensures Runs(s, steps)
    ensures Exec(s, steps).db == TranscribeEffect(s.db, s.jobs[j].row, s.jobs[j].msg, w).0
  {
    hide TriageEffect, HasText, Judge, Runs, Exec, StorableText;
    ErrorIsStorable();
    var msg := s.jobs[j].msg;
    NothingRuns(s);
    steps := [];
    if w.hasClient.Returned? && (!w.hasClient.value || msg.fileId.None?) {
      steps := GivingUpIsRun(s, j, NO_FILE_ERROR, w);
    } else if w.hasClient.Returned? && w.download.NoFile? {
      steps := GivingUpIsRun(s, j, w.error, w);
    } else if KeepsAudio(msg, w) {
      RunsSnoc(s, [], KeepAudio(j, w.download.path));
      steps := [] + [KeepAudio(j, w.download.path)];
      var rest := AfterAudioIsRun(Exec(s, steps), j, msg, w);
      RunsCompose(s, steps, rest);
      steps := steps + rest;
    }
  }

  lemma GivingUpIsRun(s: State, j: nat, error: string, w: AudioWorld) returns (steps: seq<Step>)
    requires j < |s.jobs| && (s.jobs[j].Transcribing? || s.jobs[j].AudioStored?)
    ensures Runs(s, steps)
    ensures forall replyRaises :: Exec(s, steps).db == FailEffect(s.db, s.jobs[j].row, error, w, replyRaises).0
  {
    hide Runs, Exec, StorableText;
    NothingRuns(s);
    steps := [];
    if !w.markFails && StorableText(error) {
      RunsSnoc(s, [], FailTranscription(j, error));
      steps := [] + [FailTranscription(j, error)];
    }
  }

  /** From the stored audio on. */
  lemma AfterAudioIsRun(s: State, j: nat, msg: Message, w: AudioWorld) returns (steps: seq<Step>)
    requires j < |s.jobs| && s.jobs[j].AudioStored?
    ensures Runs(s, steps)
    ensures var replyRaises := w.repliesRaise && msg.chatId.Some?;
            var row := s.jobs[j].row;
            Exec(s, steps).db ==
            match w.transcript
            case None => FailEffect(s.db, row, w.error, w, replyRaises).0
            case Some(text) =>
              if w.transcriptFails || !StorableText(text) then s.db
              else
                var done := StoreTranscript(s.db, row, text);
                if replyRaises then done else TriageEffect(done, row, Some(text), w.triage).0
  {
    hide TriageEffect, HasText, Judge, Runs, Exec, StorableText;
    NothingRuns(s);
    steps := [];
    if w.transcript.None? {
      steps := GivingUpIsRun(s, j, w.error, w);
    } else if !w.transcriptFails && StorableText(w.transcript.value) {
      RunsSnoc(s, [], KeepTranscript(j, w.transcript.value));
      steps := [] + [KeepTranscript(j, w.transcript.value)];
      if !(w.repliesRaise && msg.chatId.Some?) {
        var rest := TriageIsRun(Exec(s, steps), j, w.triage);
        RunsCompose(s, steps, rest);
        steps := steps + rest;
      }
    }
  }
}
