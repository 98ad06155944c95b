/**
 The database tables and the transactions on them. Every function here is one
 `async with pool.connection()` block: it commits as a whole or not at all. Ids are positions
 in their table, so a new row gets a fresh id and no row is ever removed.
 */
module Tables {
  import opened Wrappers
  import opened Gatekeeper

  datatype Kind = Voice | Document | Text | Unknown

  /** A parsed update (IncomingMessage); stored with the row and parsed again by recovery. */
  datatype Message = Message(
    updateId: Option<int>, chatId: Option<int>, userId: int, text: Option<string>,
    kind: Kind, fileId: Option<string>, isForward: bool)

  datatype Status = NotApplicable | Pending | Done | Failed

  datatype Row = Row(
    source: string, rawText: Option<string>, audioPath: Option<string>,
    status: Status, error: Option<string>, msg: Message,
    capturedAt: int, processedAt: Option<int>)

  datatype Item = Item(
    inboxId: nat, draft: Draft, status: string, createdAt: int,
    duplicateOf: Option<nat>, embedded: bool, remindedAt: Option<int>)

  datatype LogEntry = LogEntry(item: nat, decision: string, score: Option<int>, action: string)

  /** The tables and the database clock, in seconds. */
  datatype Db = Db(inbox: seq<Row>, items: seq<Item>, log: seq<LogEntry>, now: int)

  const OPEN := "open"
  const DONE := "done"
  const TASK := "task"
  const OVERRIDDEN_DECISIONS := ["decline", "archive"]
  const STUCK_AFTER_SECONDS := 600

  // ---- inbox ----

  /** Another row already has this non-null update id. */
  predicate Captured(inbox: seq<Row>, updateId: Option<int>) {
    updateId.Some? && exists r :: 0 <= r < |inbox| && inbox[r].msg.updateId == updateId
  }

  function SourceOf(msg: Message): string {
    match msg.kind
    case Voice => "bale_voice"
    case Document => "bale_document"
    case _ => if msg.isForward then "bale_forward" else "bale_text"
  }

  /** The row a message is captured as. */
  function NewRow(msg: Message, now: int): Row {
    var voice := msg.kind.Voice?;
    Row(SourceOf(msg), if voice then None else msg.text, None,
        if voice then Pending else NotApplicable, None, msg, now, None)
  }

  /** The insert takes the message; its row also holds the whole update. */
  predicate StorableMessage(msg: Message) {
    StorableOption(msg.text) && StorableOption(msg.fileId)
  }

  /** INSERT ... ON CONFLICT DO NOTHING RETURNING id */
  function InsertRow(db: Db, msg: Message): (Db, Option<nat>) {
    if Captured(db.inbox, msg.updateId) then (db, None)
    else (db.(inbox := db.inbox + [NewRow(msg, db.now)]), Some(|db.inbox|))
  }

  function SetRow(db: Db, id: nat, row: Row): Db {
    if id < |db.inbox| then db.(inbox := db.inbox[id := row]) else db
  }

  function MarkProcessed(db: Db, id: nat): Db {
    if id < |db.inbox| then SetRow(db, id, db.inbox[id].(processedAt := Some(db.now))) else db
  }

  function MarkFailed(db: Db, id: nat, error: string): Db {
    if id < |db.inbox| then SetRow(db, id, db.inbox[id].(status := Failed, error := Some(error))) else db
  }

  function StoreAudio(db: Db, id: nat, path: string): Db {
    if id < |db.inbox| then SetRow(db, id, db.inbox[id].(audioPath := Some(path))) else db
  }

  function StoreTranscript(db: Db, id: nat, text: string): Db {
    if id < |db.inbox| then SetRow(db, id, db.inbox[id].(rawText := Some(text), status := Done)) else db
  }

  predicate Old(db: Db, row: Row) {
    row.capturedAt < db.now - STUCK_AFTER_SECONDS
  }

  /** Selected by recover_stuck_transcriptions. */
  predicate StuckPending(db: Db, id: nat) {
    id < |db.inbox| && db.inbox[id].status.Pending? && Old(db, db.inbox[id])
  }

  /** Selected by recover_stuck_triage. */
  predicate StuckUntriaged(db: Db, id: nat) {
    && id < |db.inbox| && db.inbox[id].processedAt.None? && Old(db, db.inbox[id])
    && (db.inbox[id].status.NotApplicable? || db.inbox[id].status.Done?)
  }

  // ---- items ----

  /** Selected by recover_missing_embeddings. */
  predicate StuckUnembedded(db: Db, id: nat) {
    id < |db.items| && !db.items[id].embedded && db.items[id].createdAt < db.now - STUCK_AFTER_SECONDS
  }

  /** Insert the item and set processed_at in one transaction. */
  function CommitItem(db: Db, id: nat, draft: Draft): Db {
    MarkProcessed(db.(items := db.items + [Item(id, draft, OPEN, db.now, None, false, None)]), id)
  }

  function SetItem(db: Db, id: nat, item: Item): Db {
    if id < |db.items| then db.(items := db.items[id := item]) else db
  }

  function StoreEmbedding(db: Db, id: nat): Db {
    if id < |db.items| then SetItem(db, id, db.items[id].(embedded := true)) else db
  }

  /** meta || {"possible_duplicate_of": other} */
  function FlagDuplicate(db: Db, id: nat, other: nat): Db {
    if id < |db.items| then SetItem(db, id, db.items[id].(duplicateOf := Some(other))) else db
  }

  function SetTitle(db: Db, id: nat, title: string): Db {
    if id < |db.items| then SetItem(db, id, db.items[id].(draft := db.items[id].draft.(title := title))) else db
  }

  function MarkReminded(db: Db, id: nat): Db {
    if id < |db.items| then SetItem(db, id, db.items[id].(remindedAt := Some(db.now))) else db
  }

  /** apply_status_change finds a row to update. */
  predicate ChangesStatus(db: Db, id: nat, status: string, onlyIfDiffers: bool) {
    id < |db.items| && (onlyIfDiffers ==> db.items[id].status != status)
  }

  predicate Overridden(d: Draft) {
    d.decision in OVERRIDDEN_DECISIONS
  }

  function OverrideOf(id: nat, d: Draft): LogEntry {
    LogEntry(id, d.decision, d.score, "completed_despite_" + d.decision)
  }

  /** The status update and, when an overridden item is completed, its log row. */
  function ChangeStatus(db: Db, id: nat, status: string, onlyIfDiffers: bool): Db {
    if !ChangesStatus(db, id, status, onlyIfDiffers) then db
    else
      var item := db.items[id];
      var updated := SetItem(db, id, item.(status := status));
      if status == DONE && Overridden(item.draft) then updated.(log := updated.log + [OverrideOf(id, item.draft)])
      else updated
  }

  // ---- capacity ----

  /** What an item adds to sum(effort_minutes) over open tasks. */
  function Committed(item: Item): int {
    if item.draft.kind == TASK && item.status == OPEN && item.draft.effort.Some? then item.draft.effort.value else 0
  }

  function CommittedMinutes(items: seq<Item>): int {
    if items == [] then 0 else CommittedMinutes(items[..|items| - 1]) + Committed(items[|items| - 1])
  }

  /** remaining_capacity_hours, in minutes. */
  function Remaining(db: Db, weeklyHours: int): int {
    60 * weeklyHours - CommittedMinutes(db.items)
  }
}
