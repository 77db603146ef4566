/**
 * The conversation store as a concurrent protocol.
 *
 * Every public call is an operation that runs as a sequence of atomic steps: one lock
 * acquisition or release, or one action on shared state made under the locks it holds.
 * Short critical sections on the leaf locks (lock registry, append journal, index cache)
 * take no other lock and are one step each.  Any number of operations interleave.
 */
module StoreProtocol {
  import opened Options
  import opened ConversationTypes
  import opened ThreadLog
  import opened StoreLocks

  type Pid = nat
  type LockId = nat

  // ---------- calls and replies ----------

  datatype Request =
    | EnsureThread(
        threadId: ThreadId,
        title: string,
        createdAt: string,
        parentThreadId: Option<ThreadId>,
        labels: Option<seq<string>>,
        personalityId: Option<string>)
    | UpdateThreadTitle(threadId: ThreadId, newTitle: string, updatedAt: string)
    | UpdateThreadLabels(threadId: ThreadId, newLabels: seq<string>, updatedAt: string)
    | ListThreads
    | GetMessages(threadId: ThreadId)
    | SearchMessages
    | AppendMessage(threadId: ThreadId, message: Message)
    | UpdateMessage(threadId: ThreadId, messageId: MessageId, metadata: Option<string>)
    | DeleteMessagesFrom(threadId: ThreadId, messageId: MessageId)
    | DeleteThread(threadId: ThreadId, deletedAt: string)
    | PurgeThreads

  datatype Response =
    | IoError
    | NotFound
    | Summary(messageCount: nat, lastMessageAt: string)
    | Listed(table: Table)
    | Transcript(messages: seq<Message>)
    | Searched(index: Index)           // the index the query ran on
    | Appended(stored: Message)
    | Updated(stored: Message)
    | Truncated(removed: Option<nat>)
    | Deleted(existed: bool)
    | Purged(counts: map<ThreadId, nat>)

  // ---------- program counters ----------

  /** Work done in one step, under the locks `HeldAt` lists. */
  datatype Action =
    | AppendUpsert(t: ThreadId, request: Request)
    | FoldLog
    | RepairStats(t: ThreadId, rest: seq<ThreadId>)
    | CheckLiveForRead(t: ThreadId)
    | ReadTranscript(t: ThreadId)
    | PeekCache
    | PeekCacheLocked
    | BeginJournal
    | SnapshotThreads
    | ScanThread(t: ThreadId, rest: seq<ThreadId>, idx: Index)
    | DrainJournal(idx: Index)
    | PublishIndex(idx: Index)
    | QueryIndex
    | CheckLiveForAppend(t: ThreadId, m: Message)
    | FindDuplicate(t: ThreadId, m: Message)
    | WriteRow(t: ThreadId, m: Message)
    | RecordAppend(t: ThreadId, m: Message)
    | IndexAppend(t: ThreadId, m: Message)
    | LogAppend(t: ThreadId, m: Message)
    | PatchRow(t: ThreadId, id: MessageId, metadata: Option<string>)
    | CutTranscript(t: ThreadId, id: MessageId)
    | RebuildIndex(t: ThreadId, kept: seq<Message>, removed: nat)
    | LogStats(t: ThreadId, kept: seq<Message>, removed: nat)
    | Tombstone(t: ThreadId, deletedAt: string)
    | RemoveFile(t: ThreadId)
    | EvictLock(t: ThreadId, existed: bool)
    | DropThreadDocs(t: ThreadId)
    | WipeFiles
    | DropIndex(counts: map<ThreadId, nat>)
    | ClearLocks(counts: map<ThreadId, nat>)

  /** Where an operation stands; each lock step names the rest of the operation. */
  datatype Pc =
    | TakeRead(next: Pc)
    | TakeWrite(next: Pc)
    | TakeBuild(next: Pc)
    | FetchArc(t: ThreadId, next: Pc)
    | TakeThread(next: Pc)
    | TakeMeta(next: Pc)
    | FreeMeta(next: Pc)
    | FreeThread(next: Pc)
    | DropArc(t: ThreadId, next: Pc)
    | FreeBuild(next: Pc)
    | FreeRead(next: Pc)
    | FreeWrite(next: Pc)
    | Act(action: Action)
    | Done(response: Response)

  /** Locks an operation holds: lifecycle guard, index-build mutex, thread mutex and its Arc, metadata mutex. */
  datatype Held = Held(read: bool, write: bool, build: bool, arc: Option<ThreadId>, thread: bool, metadata: bool)

  const NOTHING := Held(false, false, false, None, false, false)
  const READING := NOTHING.(read := true)
  const WRITING := NOTHING.(write := true)
  const BUILDING := READING.(build := true)

  function WithThread(h: Held, t: ThreadId): Held {
    h.(arc := Some(t), thread := true)
  }

  function WithMeta(h: Held): Held {
    h.(metadata := true)
  }

  function HeldAt(a: Action): Held {
    match a
    case AppendUpsert(t, _) => WithMeta(WithThread(READING, t))
    case FoldLog => WithMeta(READING)
    case RepairStats(t, _) => WithMeta(WithThread(READING, t))
    case CheckLiveForRead(t) => WithMeta(WithThread(READING, t))
    case ReadTranscript(t) => WithThread(READING, t)
    case PeekCache => READING
    case PeekCacheLocked => BUILDING
    case BeginJournal => BUILDING
    case SnapshotThreads => WithMeta(BUILDING)
    case ScanThread(t, _, _) => WithThread(BUILDING, t)
    case DrainJournal(_) => WithMeta(BUILDING)
    case PublishIndex(_) => WithMeta(BUILDING)
    case QueryIndex => READING
    case CheckLiveForAppend(t, _) => WithMeta(WithThread(READING, t))
    case FindDuplicate(t, _) => WithThread(READING, t)
    case WriteRow(t, _) => WithThread(READING, t)
    case RecordAppend(t, _) => WithMeta(WithThread(READING, t))
    case IndexAppend(t, _) => WithMeta(WithThread(READING, t))
    case LogAppend(t, _) => WithMeta(WithThread(READING, t))
    case PatchRow(t, _, _) => WithThread(READING, t)
    case CutTranscript(t, _) => WithThread(BUILDING, t)
    case RebuildIndex(t, _, _) => WithThread(BUILDING, t)
    case LogStats(t, _, _) => WithMeta(WithThread(BUILDING, t))
    case Tombstone(t, _) => WithMeta(WithThread(WRITING, t))
    case RemoveFile(t) => WithThread(WRITING, t)
    case EvictLock(t, existed) => if existed then WithThread(WRITING, t) else WithMeta(WithThread(WRITING, t))
    case DropThreadDocs(t) => WithThread(WRITING, t)
    case WipeFiles => WithMeta(WRITING)
    case DropIndex(_) => WithMeta(WRITING)
    case ClearLocks(_) => WithMeta(WRITING)
  }

  /** Locks held before a lock step, given those held after it. */
  function HeldBefore(step: Pc, after: Held): Held {
    match step
    case TakeRead(_) => after.(read := false)
    case TakeWrite(_) => after.(write := false)
    case TakeBuild(_) => after.(build := false)
    case FetchArc(_, _) => after.(arc := None)
    case TakeThread(_) => after.(thread := false)
    case TakeMeta(_) => after.(metadata := false)
    case FreeMeta(_) => after.(metadata := true)
    case FreeThread(_) => after.(thread := true)
    case DropArc(t, _) => after.(arc := Some(t))
    case FreeBuild(_) => after.(build := true)
    case FreeRead(_) => after.(read := true)
    case FreeWrite(_) => after.(write := true)
    case _ => after
  }

  /** Locks held at a program counter. */
  function HeldBy(pc: Pc): Held {
    if pc.Act? then HeldAt(pc.action)
    else if pc.Done? then NOTHING
    else HeldBefore(pc, HeldBy(pc.next))
  }

  /** The next action an operation will perform, past any lock steps. */
  function Goal(pc: Pc): Option<Action> {
    if pc.Act? then Some(pc.action)
    else if pc.Done? then None
    else Goal(pc.next)
  }

  // ---------- shared state ----------

  datatype Disk = Disk(transcripts: map<ThreadId, seq<Message>>, log: seq<LogEntry>)

  /** Lock ownership, and the weak registry of per-thread mutexes. */
  datatype Locks = Locks(
    readers: set<Pid>,
    writer: Option<Pid>,
    build: Option<Pid>,
    metadata: Option<Pid>,
    registry: map<ThreadId, LockId>,
    owner: map<LockId, Pid>,
    next: LockId
  )

  /** A call in progress: its request, what is left of it, and the thread mutex it has an Arc of. */
  datatype Op = Op(request: Request, pc: Pc, arc: Option<LockId>)

  /**
   * Auxiliary variables; no step reads them.  `recorded` and `settled` are the rows whose
   * append has passed the journal step and the cache step, `lost` the threads with a known
   * count whose last statistics append failed.
   */
  datatype History = History(
    recorded: map<ThreadId, seq<Message>>,
    settled: map<ThreadId, seq<Message>>,
    lost: set<ThreadId>
  )

  datatype State = State(
    disk: Disk,
    cache: Option<Index>,
    journal: Journal,
    locks: Locks,
    ops: map<Pid, Op>,
    history: History
  )

  /** Outcome of a fallible log or transcript write, and the order in which a set of ids is visited. */
  datatype Choice = Choice(ok: bool, order: seq<ThreadId>)

  function Rows(files: map<ThreadId, seq<Message>>, t: ThreadId): seq<Message> {
    if t in files then files[t] else []
  }

  function FilesOf(s: State, t: ThreadId): seq<Message> {
    Rows(s.disk.transcripts, t)
  }

  function TableOf(s: State): Table {
    Fold(s.disk.log)
  }

  // ---------- programs ----------

  function EndRead(r: Response): Pc {
    FreeRead(Done(r))
  }

  function EndThread(t: ThreadId, r: Response): Pc {
    FreeThread(DropArc(t, EndRead(r)))
  }

  function EndThreadMeta(t: ThreadId, r: Response): Pc {
    FreeMeta(EndThread(t, r))
  }

  function EndBuildThread(t: ThreadId, r: Response): Pc {
    FreeThread(DropArc(t, FreeBuild(EndRead(r))))
  }

  function EndWriteThread(t: ThreadId, r: Response): Pc {
    FreeThread(DropArc(t, FreeWrite(Done(r))))
  }

  /** Lock one thread for an ordinary operation. */
  function OnThread(t: ThreadId, next: Pc): Pc {
    FetchArc(t, TakeThread(next))
  }

  /** The repair loop over threads whose statistics are missing. */
  function RepairLoop(todo: seq<ThreadId>): Pc {
    if todo == [] then TakeMeta(Act(FoldLog))
    else OnThread(todo[0], TakeMeta(Act(RepairStats(todo[0], todo[1..]))))
  }

  /** The cold scan over the snapshotted threads. */
  function BuildLoop(todo: seq<ThreadId>, idx: Index): Pc {
    if todo == [] then TakeMeta(Act(DrainJournal(idx)))
    else OnThread(todo[0], Act(ScanThread(todo[0], todo[1..], idx)))
  }

  function Start(request: Request): Pc {
    match request
    case EnsureThread(t, _, _, _, _, _) => TakeRead(OnThread(t, TakeMeta(Act(AppendUpsert(t, request)))))
    case UpdateThreadTitle(t, _, _) => TakeRead(OnThread(t, TakeMeta(Act(AppendUpsert(t, request)))))
    case UpdateThreadLabels(t, _, _) => TakeRead(OnThread(t, TakeMeta(Act(AppendUpsert(t, request)))))
    case ListThreads => TakeRead(TakeMeta(Act(FoldLog)))
    case GetMessages(t) => TakeRead(OnThread(t, TakeMeta(Act(CheckLiveForRead(t)))))
    case SearchMessages => TakeRead(Act(PeekCache))
    case AppendMessage(t, m) => TakeRead(OnThread(t, TakeMeta(Act(CheckLiveForAppend(t, m)))))
    case UpdateMessage(t, id, metadata) => TakeRead(OnThread(t, Act(PatchRow(t, id, metadata))))
    case DeleteMessagesFrom(t, id) => TakeRead(TakeBuild(OnThread(t, Act(CutTranscript(t, id)))))
    case DeleteThread(t, at) => TakeWrite(OnThread(t, TakeMeta(Act(Tombstone(t, at)))))
    case PurgeThreads => TakeWrite(TakeMeta(Act(WipeFiles)))
  }

  // ---------- effects of the actions ----------

  /** The log line an upsert operation appends; `None` when it needs a live thread and there is none. */
  function UpsertLine(t: ThreadId, request: Request, table: Table): Option<LogEntry> {
    match request
    case EnsureThread(_, title, createdAt, parent, labels, personality) =>
      Some(Upsert(t, title, createdAt, createdAt, parent,
                  if labels.Some? then Some(NormalizedLabels(labels.value)) else None, personality))
    case UpdateThreadTitle(_, title, updatedAt) =>
      if t !in table then None
      else var e := table[t];
           Some(Upsert(t, title, e.createdAt, updatedAt, e.parentThreadId, Some(e.labels), e.personalityId))
    case UpdateThreadLabels(_, labels, updatedAt) =>
      if t !in table then None
      else var e := table[t];
           Some(Upsert(t, e.title, e.createdAt, updatedAt, e.parentThreadId, Some(NormalizedLabels(labels)), e.personalityId))
    case _ => None
  }

  /** Timestamp of the last row, or the creation time of an empty thread. */
  function LastAt(e: ThreadEntry, rows: seq<Message>): string {
    if rows == [] then e.createdAt else rows[|rows| - 1].createdAt
  }

  function CountOf(e: ThreadEntry, rows: seq<Message>): nat {
    if e.messageCount.Some? && e.lastMessageAt.Some? then e.messageCount.value else |rows|
  }

  function SummaryOf(e: ThreadEntry, rows: seq<Message>): Response {
    if e.messageCount.Some? && e.lastMessageAt.Some? then Summary(e.messageCount.value, e.lastMessageAt.value)
    else Summary(|rows|, LastAt(e, rows))
  }

  function Unmeasured(table: Table): set<ThreadId> {
    set t | t in table && (table[t].messageCount.None? || table[t].lastMessageAt.None?)
  }

  /** Index of the first row with the id; the length when there is none. */
  function CutPoint(rows: seq<Message>, id: MessageId): nat {
    if rows == [] then 0
    else if rows[0].id == id then 0
    else 1 + CutPoint(rows[1..], id)
  }

  /** Replace the metadata of the first row with the id. */
  function Patched(rows: seq<Message>, id: MessageId, metadata: Option<string>): seq<Message> {
    if rows == [] then []
    else if rows[0].id == id then
      [if metadata.Some? then rows[0].(extraMetadata := metadata.value) else rows[0]] + rows[1..]
    else [rows[0]] + Patched(rows[1..], id, metadata)
  }

  /** The order visits every id of the set once. */
  ghost predicate Enumerates(order: seq<ThreadId>, ids: set<ThreadId>) {
    && (forall t :: t in order <==> t in ids)
    && (forall i, j :: 0 <= i < j < |order| ==> order[i] != order[j])
  }

  ghost predicate Admissible(s: State, a: Action, c: Choice) {
    match a
    case FoldLog => Enumerates(c.order, Unmeasured(TableOf(s)))
    case SnapshotThreads => Enumerates(c.order, TableOf(s).Keys)
    case _ => true
  }

  function Logged(s: State, e: LogEntry): State {
    s.(disk := s.disk.(log := s.disk.log + [e]))
  }

  function WithRows(s: State, t: ThreadId, rows: seq<Message>): State {
    s.(disk := s.disk.(transcripts := s.disk.transcripts[t := rows]))
  }

  /** Both history views of a thread become `rows`. */
  function Settled(s: State, t: ThreadId, rows: seq<Message>): State {
    s.(history := s.history.(recorded := s.history.recorded[t := rows], settled := s.history.settled[t := rows]))
  }

  function Losing(s: State, t: ThreadId): State {
    if t in TableOf(s) && TableOf(s)[t].messageCount.Some? then s.(history := s.history.(lost := s.history.lost + {t})) else s
  }

  function Regained(s: State, t: ThreadId): State {
    s.(history := s.history.(lost := s.history.lost - {t}))
  }

  /** Forget a thread's row list in a map of files. */
  function Without<T>(m: map<ThreadId, T>, t: ThreadId): map<ThreadId, T> {
    map u | u in m && u != t :: m[u]
  }

  /** What an action does: the changed state, and where its operation continues. */
  datatype Outcome = Outcome(state: State, pc: Pc)

  // ensure_thread, update_thread_title, update_thread_labels

  function DoAppendUpsert(s: State, c: Choice, t: ThreadId, request: Request): Outcome {
    var line := UpsertLine(t, request, TableOf(s));
    if line.None? then Outcome(s, EndThreadMeta(t, NotFound))
    else if !c.ok then Outcome(s, EndThreadMeta(t, IoError))
    else
      var after := Logged(s, line.value);
      var reply := if t in TableOf(after) then SummaryOf(TableOf(after)[t], FilesOf(s, t)) else NotFound;
      Outcome(after, EndThreadMeta(t, reply))
  }

  // list_threads

  function DoFoldLog(s: State, c: Choice): Outcome {
    if Unmeasured(TableOf(s)) == {} then Outcome(s, FreeMeta(EndRead(Listed(TableOf(s)))))
    else Outcome(s, FreeMeta(RepairLoop(c.order)))
  }

  function DoRepairStats(s: State, c: Choice, t: ThreadId, rest: seq<ThreadId>): Outcome {
    var again := FreeMeta(FreeThread(DropArc(t, RepairLoop(rest))));
    if t !in Unmeasured(TableOf(s)) then Outcome(s, again)
    else if !c.ok then Outcome(s, EndThreadMeta(t, IoError))
    else
      var rows := FilesOf(s, t);
      Outcome(Regained(Logged(s, Stats(t, |rows|, LastAt(TableOf(s)[t], rows))), t), again)
  }

  // get_messages

  function DoCheckLiveForRead(s: State, t: ThreadId): Outcome {
    Outcome(s, if t !in TableOf(s) then EndThreadMeta(t, Transcript([])) else FreeMeta(Act(ReadTranscript(t))))
  }

  function DoReadTranscript(s: State, t: ThreadId): Outcome {
    Outcome(s, EndThread(t, Transcript(FilesOf(s, t))))
  }

  // search_cross_thread_messages and the cold build

  function DoPeekCache(s: State): Outcome {
    Outcome(s, if s.cache.Some? then Act(QueryIndex) else TakeBuild(Act(PeekCacheLocked)))
  }

  function DoPeekCacheLocked(s: State): Outcome {
    Outcome(s, if s.cache.Some? then FreeBuild(Act(QueryIndex)) else Act(BeginJournal))
  }

  function DoBeginJournal(s: State): Outcome {
    Outcome(s.(journal := Some([])), TakeMeta(Act(SnapshotThreads)))
  }

  function DoSnapshotThreads(s: State, c: Choice): Outcome {
    if !c.ok then Outcome(s.(journal := None), FreeMeta(FreeBuild(EndRead(IoError))))
    else Outcome(s, FreeMeta(BuildLoop(c.order, map[])))
  }

  function DoScanThread(s: State, t: ThreadId, rest: seq<ThreadId>, idx: Index): Outcome {
    Outcome(s, FreeThread(DropArc(t, BuildLoop(rest, IndexInsertAll(idx, t, FilesOf(s, t))))))
  }

  function DoDrainJournal(s: State, idx: Index): Outcome {
    Outcome(s.(journal := None), Act(PublishIndex(IndexReplay(idx, Drained(s.journal)))))
  }

  function DoPublishIndex(s: State, idx: Index): Outcome {
    Outcome(s.(cache := Some(idx)), FreeMeta(FreeBuild(Act(QueryIndex))))
  }

  function DoQueryIndex(s: State): Outcome {
    Outcome(s, EndRead(if s.cache.Some? then Searched(s.cache.value) else NotFound))
  }

  // append_message

  function DoCheckLiveForAppend(s: State, t: ThreadId, m: Message): Outcome {
    Outcome(s, if t !in TableOf(s) then EndThreadMeta(t, NotFound) else FreeMeta(Act(FindDuplicate(t, m))))
  }

  function DoFindDuplicate(s: State, t: ThreadId, m: Message): Outcome {
    var existing := Lookup(FilesOf(s, t), m.id);
    Outcome(s, if IsDeterministicMessageId(m.id) && existing.Some? then EndThread(t, Appended(existing.value))
               else Act(WriteRow(t, m)))
  }

  function DoWriteRow(s: State, c: Choice, t: ThreadId, m: Message): Outcome {
    if !c.ok then Outcome(s, EndThread(t, IoError))
    else Outcome(WithRows(s, t, FilesOf(s, t) + [m]), TakeMeta(Act(RecordAppend(t, m))))
  }

  function DoRecordAppend(s: State, t: ThreadId, m: Message): Outcome {
    var recorded := s.history.recorded[t := Rows(s.history.recorded, t) + [m]];
    Outcome(s.(journal := Recorded(s.journal, t, m), history := s.history.(recorded := recorded)), Act(IndexAppend(t, m)))
  }

  function DoIndexAppend(s: State, t: ThreadId, m: Message): Outcome {
    var cache := if s.cache.Some? then Some(IndexInsert(s.cache.value, t, m)) else None;
    var settled := s.history.settled[t := Rows(s.history.settled, t) + [m]];
    Outcome(s.(cache := cache, history := s.history.(settled := settled)), Act(LogAppend(t, m)))
  }

  function DoLogAppend(s: State, c: Choice, t: ThreadId, m: Message): Outcome {
    if !c.ok then Outcome(Losing(s, t), EndThreadMeta(t, IoError))
    else Outcome(Logged(s, MessageAppended(t, m.createdAt)), EndThreadMeta(t, Appended(m)))
  }

  // update_message

  function DoPatchRow(s: State, c: Choice, t: ThreadId, id: MessageId, metadata: Option<string>): Outcome {
    var rows := FilesOf(s, t);
    if Lookup(rows, id).None? then Outcome(s, EndThread(t, NotFound))
    else if !c.ok then Outcome(s, EndThread(t, IoError))
    else
      var patched := Patched(rows, id, metadata);
      Outcome(Settled(WithRows(s, t, patched), t, patched),
              EndThread(t, Updated(GetOr(Lookup(patched, id), Lookup(rows, id).value))))
  }

  // delete_messages_from

  function DoCutTranscript(s: State, c: Choice, t: ThreadId, id: MessageId): Outcome {
    var rows := FilesOf(s, t);
    var cut := CutPoint(rows, id);
    if cut >= |rows| then Outcome(s, EndBuildThread(t, Truncated(None)))
    else if !c.ok then Outcome(s, EndBuildThread(t, IoError))
    else Outcome(WithRows(s, t, rows[..cut]), Act(RebuildIndex(t, rows[..cut], |rows| - cut)))
  }

  function DoRebuildIndex(s: State, t: ThreadId, kept: seq<Message>, removed: nat): Outcome {
    var rebuilt := if s.cache.Some? then Some(IndexInsertAll(IndexRemoveThread(s.cache.value, t), t, kept)) else None;
    Outcome(Settled(s.(cache := rebuilt), t, kept), TakeMeta(Act(LogStats(t, kept, removed))))
  }

  function DoLogStats(s: State, c: Choice, t: ThreadId, kept: seq<Message>, removed: nat): Outcome {
    if !c.ok then Outcome(Losing(s, t), FreeMeta(EndBuildThread(t, IoError)))
    else
      var last := if kept != [] then kept[|kept| - 1].createdAt
                  else if t in TableOf(s) then TableOf(s)[t].createdAt
                  else "";
      Outcome(Regained(Logged(s, Stats(t, |kept|, last)), t), FreeMeta(EndBuildThread(t, Truncated(Some(removed)))))
  }

  // delete_thread

  function DoTombstone(s: State, c: Choice, t: ThreadId, deletedAt: string): Outcome {
    if t !in TableOf(s) then Outcome(s, Act(EvictLock(t, false)))
    else if !c.ok then Outcome(s, FreeMeta(EndWriteThread(t, IoError)))
    else Outcome(Regained(Logged(s, LogEntry.Delete(t, deletedAt)), t), FreeMeta(Act(RemoveFile(t))))
  }

  function DoRemoveFile(s: State, t: ThreadId): Outcome {
    Outcome(s.(disk := s.disk.(transcripts := Without(s.disk.transcripts, t))), Act(EvictLock(t, true)))
  }

  function DoEvictLock(s: State, t: ThreadId, existed: bool): Outcome {
    Outcome(s.(locks := s.locks.(registry := Without(s.locks.registry, t))),
            if existed then Act(DropThreadDocs(t)) else FreeMeta(EndWriteThread(t, Deleted(false))))
  }

  function DoDropThreadDocs(s: State, t: ThreadId): Outcome {
    var cache := if s.cache.Some? then Some(IndexRemoveThread(s.cache.value, t)) else None;
    Outcome(Settled(s.(cache := cache), t, []), EndWriteThread(t, Deleted(true)))
  }

  // purge_threads

  /** The message count of every live thread, as the reply of a purge reports it. */
  function WipedCounts(s: State): map<ThreadId, nat> {
    map t | t in TableOf(s) :: CountOf(TableOf(s)[t], FilesOf(s, t))
  }

  function DoWipeFiles(s: State): Outcome {
    Outcome(s.(disk := Disk(map[], []), history := s.history.(lost := {})), Act(DropIndex(WipedCounts(s))))
  }

  function DoDropIndex(s: State, counts: map<ThreadId, nat>): Outcome {
    Outcome(s.(cache := None, history := History(map[], map[], {})), Act(ClearLocks(counts)))
  }

  function DoClearLocks(s: State, counts: map<ThreadId, nat>): Outcome {
    Outcome(s.(locks := s.locks.(registry := map[])), FreeMeta(FreeWrite(Done(Purged(counts)))))
  }

  function Perform(s: State, a: Action, c: Choice): Outcome {
    match a
    case AppendUpsert(t, request) => DoAppendUpsert(s, c, t, request)
    case FoldLog => DoFoldLog(s, c)
    case RepairStats(t, rest) => DoRepairStats(s, c, t, rest)
    case CheckLiveForRead(t) => DoCheckLiveForRead(s, t)
    case ReadTranscript(t) => DoReadTranscript(s, t)
    case PeekCache => DoPeekCache(s)
    case PeekCacheLocked => DoPeekCacheLocked(s)
    case BeginJournal => DoBeginJournal(s)
    case SnapshotThreads => DoSnapshotThreads(s, c)
    case ScanThread(t, rest, idx) => DoScanThread(s, t, rest, idx)
    case DrainJournal(idx) => DoDrainJournal(s, idx)
    case PublishIndex(idx) => DoPublishIndex(s, idx)
    case QueryIndex => DoQueryIndex(s)
    case CheckLiveForAppend(t, m) => DoCheckLiveForAppend(s, t, m)
    case FindDuplicate(t, m) => DoFindDuplicate(s, t, m)
    case WriteRow(t, m) => DoWriteRow(s, c, t, m)
    case RecordAppend(t, m) => DoRecordAppend(s, t, m)
    case IndexAppend(t, m) => DoIndexAppend(s, t, m)
    case LogAppend(t, m) => DoLogAppend(s, c, t, m)
    case PatchRow(t, id, metadata) => DoPatchRow(s, c, t, id, metadata)
    case CutTranscript(t, id) => DoCutTranscript(s, c, t, id)
    case RebuildIndex(t, kept, removed) => DoRebuildIndex(s, t, kept, removed)
    case LogStats(t, kept, removed) => DoLogStats(s, c, t, kept, removed)
    case Tombstone(t, deletedAt) => DoTombstone(s, c, t, deletedAt)
    case RemoveFile(t) => DoRemoveFile(s, t)
    case EvictLock(t, existed) => DoEvictLock(s, t, existed)
    case DropThreadDocs(t) => DoDropThreadDocs(s, t)
    case WipeFiles => DoWipeFiles(s)
    case DropIndex(counts) => DoDropIndex(s, counts)
    case ClearLocks(counts) => DoClearLocks(s, counts)
  }

  // ---------- the per-thread lock registry ----------

  /** The mutexes some operation still holds an Arc of. */
  function Referenced(ops: map<Pid, Op>): set<LockId> {
    set q | q in ops && ops[q].arc.Some? :: ops[q].arc.value
  }

  /** Upgrade the registered mutex of a thread, or register a new one. */
  function Fetched(s: State, p: Pid, t: ThreadId, next: Pc): State
    requires p in s.ops
  {
    var kept := Upgradable(s.locks.registry, Referenced(s.ops));
    var mutex := MutexFor(s.locks.registry, Referenced(s.ops), t, s.locks.next);
    s.(locks := s.locks.(registry := kept[t := mutex], next := if t in kept then s.locks.next else s.locks.next + 1),
       ops := s.ops[p := s.ops[p].(pc := next, arc := Some(mutex))])
  }

  // ---------- steps and runs ----------

  /** The lock step at an operation's program counter can be taken now; freeing never waits. */
  predicate CanStep(locks: Locks, op: Op) {
    match op.pc
    case TakeRead(_) => locks.writer.None?
    case TakeWrite(_) => locks.writer.None? && locks.readers == {}
    case TakeBuild(_) => locks.build.None?
    case TakeThread(_) => op.arc.Some? && op.arc.value !in locks.owner
    case TakeMeta(_) => locks.metadata.None?
    case FreeThread(_) => op.arc.Some?
    case _ => true
  }

  /** The lock tables after that step. */
  function Stepped(locks: Locks, p: Pid, op: Op): Locks
    requires CanStep(locks, op)
  {
    match op.pc
    case TakeRead(_) => locks.(readers := locks.readers + {p})
    case TakeWrite(_) => locks.(writer := Some(p))
    case TakeBuild(_) => locks.(build := Some(p))
    case TakeThread(_) => locks.(owner := locks.owner[op.arc.value := p])
    case TakeMeta(_) => locks.(metadata := Some(p))
    case FreeMeta(_) => locks.(metadata := None)
    case FreeThread(_) => locks.(owner := map l | l in locks.owner && l != op.arc.value :: locks.owner[l])
    case FreeBuild(_) => locks.(build := None)
    case FreeRead(_) => locks.(readers := locks.readers - {p})
    case FreeWrite(_) => locks.(writer := None)
    case _ => locks
  }

  function ArcAfter(op: Op): Option<LockId> {
    if op.pc.DropArc? then None else op.arc
  }

  function Advanced(op: Op): Op
    requires !op.pc.Act? && !op.pc.Done?
  {
    op.(pc := op.pc.next, arc := ArcAfter(op))
  }

  /** A lock is taken or freed, or an Arc dropped. */
  function LockStepped(s: State, p: Pid): State
    requires p in s.ops && CanStep(s.locks, s.ops[p]) && !s.ops[p].pc.Act? && !s.ops[p].pc.Done?
  {
    var op := s.ops[p];
    s.(locks := Stepped(s.locks, p, op), ops := s.ops[p := Advanced(op)])
  }

  /** The outcome of an action becomes the new state, with its operation at the new point. */
  predicate ActionStep(s: State, p: Pid, o: Outcome, s': State) {
    p in s.ops && s' == o.state.(ops := s.ops[p := s.ops[p].(pc := o.pc)])
  }

  ghost predicate Step(s: State, p: Pid, c: Choice, s': State) {
    p in s.ops &&
    var op := s.ops[p];
    if op.pc.Done? then false
    else if op.pc.Act? then Admissible(s, op.pc.action, c) && ActionStep(s, p, Perform(s, op.pc.action, c), s')
    else if op.pc.FetchArc? then s' == Fetched(s, p, op.pc.t, op.pc.next)
    else CanStep(s.locks, op) && s' == LockStepped(s, p)
  }

  /** A client issues a new call. */
  ghost predicate Spawn(s: State, p: Pid, request: Request, s': State) {
    p !in s.ops && s' == s.(ops := s.ops[p := Op(request, Start(request), None)])
  }

  ghost predicate Next(s: State, s': State) {
    || (exists p, request :: Spawn(s, p, request, s'))
    || (exists p, c :: Step(s, p, c, s'))
  }

  /** An empty workspace with a cold index and no call in progress. */
  const INITIAL := State(
    Disk(map[], []), None, None,
    Locks({}, None, None, None, map[], map[], 0),
    map[],
    History(map[], map[], {}))
}
