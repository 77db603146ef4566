/**
 * The inductive invariant of the store protocol: transcripts, folded statistics, the warm
 * index and the append journal agree in every reachable state, up to the row an operation is
 * still working on under its thread's lock.
 */
module StoreSafety {
  import opened Options
  import opened ConversationTypes
  import opened ThreadLog
  import opened StoreProtocol
  import opened StoreLockOrder

  // ---------- one thread ----------

  /** Everything the store knows about one thread. */
  datatype View = View(
    rows: seq<Message>,
    recorded: seq<Message>,
    settled: seq<Message>,
    entry: Option<ThreadEntry>,
    lost: bool
  )

  function ViewOf(s: State, t: ThreadId): View {
    View(FilesOf(s, t), Rows(s.history.recorded, t), Rows(s.history.settled, t),
         if t in TableOf(s) then Some(TableOf(s)[t]) else None, t in s.history.lost)
  }

  /** A known count is the number of rows, with the timestamp of the last one. */
  ghost predicate StatsAgree(e: ThreadEntry, rows: seq<Message>) {
    e.messageCount.Some? ==> e.messageCount.value == |rows| && e.lastMessageAt == Some(LastAt(e, rows))
  }

  /** Statistics agree unless an append of them was lost. */
  ghost predicate Counted(v: View, rows: seq<Message>) {
    v.entry.Some? && !v.lost ==> StatsAgree(v.entry.value, rows)
  }

  /** No two rows carry one deterministic id. */
  ghost predicate DeterministicIdsUnique(rows: seq<Message>) {
    forall i, j :: 0 <= i < j < |rows| && rows[i].id == rows[j].id ==> !IsDeterministicMessageId(rows[i].id)
  }

  ghost predicate WellKept(v: View) {
    && (v.entry.Some? && v.entry.value.messageCount.Some? ==> v.entry.value.lastMessageAt.Some?)
    && (v.lost ==> v.entry.Some? && v.entry.value.messageCount.Some?)
    && DeterministicIdsUnique(v.rows)
  }

  ghost predicate Level(v: View) {
    v.rows == v.recorded == v.settled
  }

  /** No operation is in the middle of changing the thread. */
  ghost predicate Quiet(v: View) {
    && Level(v)
    && Counted(v, v.rows)
    && (v.entry.None? ==> v.rows == [])
  }

  /** The state of a thread while `g` is the pending action of the operation that pins it. */
  ghost predicate ThreadInv(v: View, g: Option<Action>) {
    && WellKept(v)
    && if g.None? then Quiet(v) else
       match g.value
       case FindDuplicate(_, m) => Quiet(v) && v.entry.Some?
       case WriteRow(_, m) =>
         Quiet(v) && v.entry.Some? && (IsDeterministicMessageId(m.id) ==> Lookup(v.rows, m.id).None?)
       case RecordAppend(_, m) =>
         v.entry.Some? && v.rows == v.recorded + [m] && v.recorded == v.settled && Counted(v, v.recorded)
       case IndexAppend(_, m) =>
         v.entry.Some? && v.rows == v.recorded && v.recorded == v.settled + [m] && Counted(v, v.settled)
       case LogAppend(_, m) =>
         v.entry.Some? && Level(v) && v.rows != [] && v.rows[|v.rows| - 1] == m && Counted(v, v.rows[..|v.rows| - 1])
       case RebuildIndex(_, kept, _) => v.entry.Some? && v.rows == kept && v.recorded == v.settled && kept <= v.settled
       case LogStats(_, kept, _) => v.entry.Some? && Level(v) && v.rows == kept
       case RemoveFile(_) => v.entry.None? && Level(v)
       case EvictLock(_, existed) =>
         v.entry.None? && v.rows == [] && v.recorded == v.settled && (!existed ==> v.settled == [])
       case DropThreadDocs(_) => v.entry.None? && v.rows == [] && v.recorded == v.settled
       case _ => Quiet(v)
  }

  // ---------- all threads ----------

  /** The pending action of an operation when it pins the thread. */
  function PinGoal(pc: Pc, t: ThreadId): Option<Action> {
    if Goal(pc).Some? && PinnedThread(Goal(pc).value) == Some(t) then Goal(pc) else None
  }

  ghost predicate ThreadsInv(s: State) {
    && (forall q, t :: q in s.ops && PinGoal(s.ops[q].pc, t).Some? ==> ThreadInv(ViewOf(s, t), PinGoal(s.ops[q].pc, t)))
    && (forall t :: (forall q :: q in s.ops ==> PinGoal(s.ops[q].pc, t).None?) ==> ThreadInv(ViewOf(s, t), None))
  }

  /** A purge has removed the files but not yet the index. */
  ghost predicate Wiping(s: State) {
    && s.locks.writer.Some? && s.locks.writer.value in s.ops
    && s.ops[s.locks.writer.value].pc.Act? && s.ops[s.locks.writer.value].pc.action.DropIndex?
  }

  ghost predicate FilesWiped(s: State) {
    s.disk == Disk(map[], []) && s.history.lost == {}
  }

  // ---------- index and journal ----------

  ghost predicate IndexSettled(s: State, idx: Index) {
    forall t, id :: IndexGet(idx, t, id) == LookupDoc(Rows(s.history.settled, t), id)
  }

  /** The scan so far plus the journal is what the recorded rows say, outside the threads still to be scanned. */
  ghost predicate ScanSound(s: State, todo: seq<ThreadId>, idx: Index) {
    && s.journal.Some? && s.cache.None?
    && (forall i, j :: 0 <= i < j < |todo| ==> todo[i] != todo[j])
    && (forall t, id :: t in todo ==> IndexGet(idx, t, id).None?)
    && (forall t, id :: t !in todo ==>
          OrElse(IndexGet(idx, t, id), JournalDoc(s.journal.value, t, id)) == LookupDoc(Rows(s.history.recorded, t), id))
  }

  ghost predicate BuildInv(s: State, a: Action) {
    match a
    case BeginJournal => s.cache.None?
    case SnapshotThreads => s.journal.Some? && s.cache.None?
    case ScanThread(t, rest, idx) => ScanSound(s, [t] + rest, idx)
    case DrainJournal(idx) => ScanSound(s, [], idx)
    case PublishIndex(idx) => s.cache.None? && IndexSettled(s, idx)
    case QueryIndex => s.cache.Some?
    case _ => true
  }

  ghost predicate JournalRecorded(s: State) {
    s.journal.Some? ==>
      forall t, id :: JournalDoc(s.journal.value, t, id).Some? ==> LookupDoc(Rows(s.history.recorded, t), id).Some?
  }

  ghost predicate IndexInv(s: State) {
    && (s.cache.Some? ==> IndexSettled(s, s.cache.value))
    && (s.journal.Some? ==>
          s.locks.build.Some? && s.locks.build.value in s.ops
          && Goal(s.ops[s.locks.build.value].pc).Some? && IsBuilder(Goal(s.ops[s.locks.build.value].pc).value))
    && JournalRecorded(s)
    && (forall q :: q in s.ops && Goal(s.ops[q].pc).Some? ==> BuildInv(s, Goal(s.ops[q].pc).value))
  }

  ghost predicate Safe(s: State) {
    && LockInv(s)
    && (if Wiping(s) then FilesWiped(s) else ThreadsInv(s))
    && IndexInv(s)
  }

  // ---------- general steps ----------

  lemma PinnedHolds(s: State, q: Pid, t: ThreadId)
    requires LockInv(s) && q in s.ops && PinGoal(s.ops[q].pc, t).Some?
    ensures HeldBy(s.ops[q].pc).thread && HeldBy(s.ops[q].pc).arc == Some(t)
  {
    assert OpLocks(s, q);
  }

  /** An operation that holds a lock outside the wiping step excludes a wipe in progress. */
  lemma HolderNotWiping(s: State, p: Pid)
    requires LockInv(s) && p in s.ops && HeldBy(s.ops[p].pc) != NOTHING
    requires s.ops[p].pc.Act? ==> !s.ops[p].pc.action.DropIndex?
    ensures !Wiping(s)
  {
    assert OpLocks(s, p);
  }

  /** What the holder of a thread's mutex knows about the thread. */
  lemma HolderView(s: State, p: Pid, t: ThreadId)
    requires Safe(s) && p in s.ops
    requires HeldBy(s.ops[p].pc).thread && HeldBy(s.ops[p].pc).arc == Some(t)
    requires s.ops[p].pc.Act? && !s.ops[p].pc.action.DropIndex?
    ensures !Wiping(s)
    ensures ThreadInv(ViewOf(s, t), PinGoal(s.ops[p].pc, t))
  {
    HolderNotWiping(s, p);
    if PinGoal(s.ops[p].pc, t).None? {
      forall q | q in s.ops ensures PinGoal(s.ops[q].pc, t).None? {
        if PinGoal(s.ops[q].pc, t).Some? {
          PinnedHolds(s, q, t);
          OneHolderPerThread(s, p, q, t);
        }
      }
    }
  }

  /** A step of the holder of one thread's mutex that leaves the other threads alone. */
  lemma ThreadStep(s: State, p: Pid, t: ThreadId, n: Pc, s': State)
    requires Safe(s) && p in s.ops && s.ops[p].pc.Act? && !s.ops[p].pc.action.DropIndex?
    requires HeldBy(s.ops[p].pc).thread && HeldBy(s.ops[p].pc).arc == Some(t)
    requires s'.ops == s.ops[p := s.ops[p].(pc := n)]
    requires s'.locks == s.locks.(registry := s'.locks.registry)
    requires forall u :: u != t ==> ViewOf(s', u) == ViewOf(s, u)
    requires n.Act? ==> !n.action.DropIndex?
    requires forall u :: u != t ==> PinGoal(n, u).None?
    requires ThreadInv(ViewOf(s', t), PinGoal(n, t))
    ensures !Wiping(s') && ThreadsInv(s')
  {
    hide Goal, HeldBy, PinnedThread, ThreadInv, ViewOf;
    HolderView(s, p, t);
    var before := s.ops[p].pc;
    assert forall u :: u != t ==> PinGoal(before, u).None? by {
      PinsAtMostHeld(s, p, t);
    }
    forall q, u | q in s'.ops && PinGoal(s'.ops[q].pc, u).Some?
      ensures ThreadInv(ViewOf(s', u), PinGoal(s'.ops[q].pc, u))
    {
      if q != p && u == t {
        PinnedHolds(s, q, t);
        OneHolderPerThread(s, p, q, t);
      }
    }
    forall u | forall q :: q in s'.ops ==> PinGoal(s'.ops[q].pc, u).None?
      ensures ThreadInv(ViewOf(s', u), None)
    {
      assert s'.ops[p].pc == n;
      if u != t {
        forall q | q in s.ops ensures PinGoal(s.ops[q].pc, u).None? {
          if q != p {
            assert s'.ops[q] == s.ops[q];
          }
        }
      }
    }
  }

  lemma PinsAtMostHeld(s: State, p: Pid, t: ThreadId)
    requires LockInv(s) && p in s.ops && HeldBy(s.ops[p].pc).arc == Some(t)
    ensures forall u :: u != t ==> PinGoal(s.ops[p].pc, u).None?
  {
    assert OpLocks(s, p);
  }

  /** A step that touches no thread. */
  lemma NoThreadStep(s: State, p: Pid, n: Pc, s': State)
    requires Safe(s) && !Wiping(s) && p in s.ops
    requires p in s'.ops && s'.ops == s.ops[p := s'.ops[p]] && s'.ops[p].pc == n
    requires forall u :: ViewOf(s', u) == ViewOf(s, u)
    requires forall u :: PinGoal(s.ops[p].pc, u).None? && PinGoal(n, u).None?
    ensures ThreadsInv(s')
  {
    hide Goal, HeldBy, PinnedThread, ThreadInv, ViewOf;
    forall q, u | q in s'.ops && PinGoal(s'.ops[q].pc, u).Some?
      ensures ThreadInv(ViewOf(s', u), PinGoal(s'.ops[q].pc, u))
    {
      assert q != p;
    }
    forall u | forall q :: q in s'.ops ==> PinGoal(s'.ops[q].pc, u).None?
      ensures ThreadInv(ViewOf(s', u), None)
    {
      forall q | q in s.ops ensures PinGoal(s.ops[q].pc, u).None? {
        if q != p {
          assert s'.ops[q] == s.ops[q];
        }
      }
    }
  }

  /** A step that leaves the index, the journal and the history alone. */
  lemma IndexFrame(s: State, p: Pid, n: Pc, s': State)
    requires Safe(s) && p in s.ops && p in s'.ops && s'.ops == s.ops[p := s'.ops[p]] && s'.ops[p].pc == n
    requires s'.cache == s.cache && s'.journal == s.journal
    requires s'.history.recorded == s.history.recorded && s'.history.settled == s.history.settled
    requires s'.locks.build == s.locks.build
    requires s.journal.Some? && s.locks.build == Some(p) ==> Goal(n).Some? && IsBuilder(Goal(n).value)
    requires Goal(n).Some? ==> BuildInv(s', Goal(n).value)
    ensures IndexInv(s')
  {
    hide Goal, HeldBy, LockInv, ThreadsInv;
    forall q | q in s'.ops && Goal(s'.ops[q].pc).Some?
      ensures BuildInv(s', Goal(s'.ops[q].pc).value)
    {
      if q != p {
        assert s'.ops[q] == s.ops[q];
        assert BuildInv(s, Goal(s.ops[q].pc).value);
      }
    }
  }

  lemma LoggedOthers(s: State, e: LogEntry, u: ThreadId)
    requires u != e.threadId
    ensures u in Fold(s.disk.log + [e]) <==> u in Fold(s.disk.log)
    ensures u in Fold(s.disk.log) ==> Fold(s.disk.log + [e])[u] == Fold(s.disk.log)[u]
  {
    FoldAppend(s.disk.log, e);
  }

  /** An action about to be performed. */
  ghost predicate Performs(s: State, p: Pid, a: Action, o: Outcome, s': State) {
    Safe(s) && p in s.ops && s.ops[p].pc == Act(a) && ActionStep(s, p, o, s')
  }

  /** An action on one thread that leaves the index, the journal and the history alone. */
  lemma QuietThreadAction(s: State, p: Pid, a: Action, o: Outcome, s': State, t: ThreadId)
    requires Performs(s, p, a, o, s') && Continues(a, o.pc)
    requires HeldAt(a).thread && HeldAt(a).arc == Some(t) && !a.DropIndex?
    requires o.state == s.(disk := o.state.disk, history := s.history.(lost := o.state.history.lost),
                           locks := s.locks.(registry := o.state.locks.registry))
    requires o.state.locks.registry == s.locks.registry
          || (HeldAt(a).write && o.state.locks.registry == Without(s.locks.registry, t))
    requires forall u :: u != t ==> ViewOf(o.state, u) == ViewOf(s, u)
    requires o.pc.Act? ==> !o.pc.action.DropIndex?
    requires forall u :: u != t ==> PinGoal(o.pc, u).None?
    requires ThreadInv(ViewOf(o.state, t), PinGoal(o.pc, t))
    requires !HeldAt(a).build || s.journal.None?
    requires Goal(o.pc).Some? ==> BuildInv(o.state, Goal(o.pc).value)
    ensures Safe(s')
  {
    ActionSteps(s, p, a, o, s');
    assert OpLocks(s, p);
    assert HeldBy(Act(a)) == HeldAt(a);
    hide Goal, HeldBy, HeldAt, ThreadInv, LockInv, OpLocks;
    assert forall u :: ViewOf(s', u) == ViewOf(o.state, u);
    ThreadStep(s, p, t, o.pc, s');
    hide ThreadsInv;
    if Goal(o.pc).Some? {
      SameBuild(o.state, s', Goal(o.pc).value);
    }
    IndexFrame(s, p, o.pc, s');
  }

  /** The index conditions read only the cache, the journal and the history. */
  lemma SameBuild(s: State, s': State, a: Action)
    requires s'.cache == s.cache && s'.journal == s.journal
    requires s'.history.recorded == s.history.recorded && s'.history.settled == s.history.settled
    requires BuildInv(s, a)
    ensures BuildInv(s', a)
  {
  }

  // ---------- ensure_thread, update_thread_title, update_thread_labels ----------

  /** An upsert keeps the count and the creation time of a live thread and starts a new one without a count. */
  lemma UpsertKeepsThread(s: State, t: ThreadId, request: Request)
    requires UpsertLine(t, request, TableOf(s)).Some?
    requires ThreadInv(ViewOf(s, t), None)
    ensures ThreadInv(ViewOf(Logged(s, UpsertLine(t, request, TableOf(s)).value), t), None)
    ensures forall u :: u != t ==> ViewOf(Logged(s, UpsertLine(t, request, TableOf(s)).value), u) == ViewOf(s, u)
  {
    var line := UpsertLine(t, request, TableOf(s)).value;
    assert line.Upsert? && line.threadId == t;
    hide UpsertLine;
    FoldAppend(s.disk.log, line);
    UpsertEntry(TableOf(s), line, t);
    hide Fold, ApplyEntry, DeterministicIdsUnique;
    forall u | u != t ensures ViewOf(Logged(s, line), u) == ViewOf(s, u) {
      LoggedOthers(s, line, u);
    }
  }

  lemma AppendUpsertSafe(s: State, p: Pid, c: Choice, t: ThreadId, request: Request, s': State)
    requires Performs(s, p, AppendUpsert(t, request), DoAppendUpsert(s, c, t, request), s')
    ensures Safe(s')
  {
    var a, o := AppendUpsert(t, request), DoAppendUpsert(s, c, t, request);
    HolderView(s, p, t);
    EndThreadMetaOk(t, o.pc.next.next.next.next.response);
    assert Continues(a, o.pc) && Goal(o.pc).None?;
    assert PinGoal(Act(a), t).None?;
    hide Disciplined, Goal, HeldBy, UpsertLine, ViewOf, ThreadInv;
    if UpsertLine(t, request, TableOf(s)).Some? {
      UpsertKeepsThread(s, t, request);
    }
    QuietThreadAction(s, p, a, o, s', t);
  }

  // ---------- list_threads ----------

  /** Measuring a thread makes its statistics agree, whatever they were. */
  lemma RepairKeepsThread(s: State, t: ThreadId, after: State)
    requires t in TableOf(s) && ThreadInv(ViewOf(s, t), None)
    requires after == Regained(Logged(s, Stats(t, |FilesOf(s, t)|, LastAt(TableOf(s)[t], FilesOf(s, t)))), t)
    ensures ThreadInv(ViewOf(after, t), None)
    ensures forall u :: u != t ==> ViewOf(after, u) == ViewOf(s, u)
  {
    var line := Stats(t, |FilesOf(s, t)|, LastAt(TableOf(s)[t], FilesOf(s, t)));
    FoldAppend(s.disk.log, line);
    forall u | u != t ensures ViewOf(after, u) == ViewOf(s, u) {
      LoggedOthers(s, line, u);
    }
  }

  lemma RepairContinues(t: ThreadId, rest: seq<ThreadId>)
    ensures var again := FreeMeta(FreeThread(DropArc(t, RepairLoop(rest))));
            Continues(RepairStats(t, rest), again)
            && Goal(again) == Some(if rest == [] then FoldLog else RepairStats(rest[0], rest[1..]))
  {
    hide Disciplined, HeldBy, Goal, RepairLoop;
    RepairLoopOk(rest);
    Prepend(DropArc(t, RepairLoop(rest)));
    Prepend(FreeThread(DropArc(t, RepairLoop(rest))));
    Prepend(FreeMeta(FreeThread(DropArc(t, RepairLoop(rest)))));
  }

  lemma RepairStatsSafe(s: State, p: Pid, c: Choice, t: ThreadId, rest: seq<ThreadId>, s': State)
    requires Performs(s, p, RepairStats(t, rest), DoRepairStats(s, c, t, rest), s')
    ensures Safe(s')
  {
    hide Safe, Disciplined, HeldBy, Goal, RepairLoop;
    var a, o := RepairStats(t, rest), DoRepairStats(s, c, t, rest);
    ActOk(a);
    HolderView(s, p, t);
    EndThreadMetaOk(t, IoError);
    RepairContinues(t, rest);
    assert PinGoal(Act(a), t).None?;
    hide ViewOf, ThreadInv, Fold, EndThreadMeta;
    if t in Unmeasured(TableOf(s)) && c.ok {
      RepairKeepsThread(s, t, o.state);
    }
    hide Unmeasured;
    QuietThreadAction(s, p, a, o, s', t);
  }

  lemma FoldLogSafe(s: State, p: Pid, c: Choice, s': State)
    requires Performs(s, p, FoldLog, DoFoldLog(s, c), s')
    ensures Safe(s')
  {
    hide Safe, Disciplined, HeldBy, Goal, RepairLoop;
    var o := DoFoldLog(s, c);
    ActOk(FoldLog);
    RepairLoopOk(c.order);
    Prepend(FreeMeta(RepairLoop(c.order)));
    EndReadOk(Listed(TableOf(s)));
    Prepend(FreeMeta(EndRead(Listed(TableOf(s)))));
    hide EndRead, TableOf, Unmeasured;
    UnpinnedAction(s, p, FoldLog, o, s');
  }

  /** An action that touches no thread and leaves the index, the journal and the history alone. */
  lemma UnpinnedAction(s: State, p: Pid, a: Action, o: Outcome, s': State)
    requires Performs(s, p, a, o, s') && Continues(a, o.pc)
    requires PinnedThread(a).None? && !a.DropIndex? && HeldAt(a) != NOTHING
    requires o.state == s
    requires forall u :: PinGoal(o.pc, u).None?
    requires o.pc.Act? ==> !o.pc.action.DropIndex?
    requires IsBuilder(a) ==> Goal(o.pc).Some? && IsBuilder(Goal(o.pc).value)
    requires Goal(o.pc).Some? ==> BuildInv(s', Goal(o.pc).value)
    ensures Safe(s')
  {
    ActionSteps(s, p, a, o, s');
    HolderNotWiping(s, p);
    assert OpLocks(s, p);
    assert HeldBy(Act(a)) == HeldAt(a) && forall u :: PinGoal(Act(a), u).None?;
    assert forall u :: ViewOf(s', u) == ViewOf(s, u);
    NoThreadStep(s, p, o.pc, s');
    NotWipingAfter(s, p, o.pc, s');
    IndexFrame(s, p, o.pc, s');
  }

  lemma NotWipingAfter(s: State, p: Pid, n: Pc, s': State)
    requires !Wiping(s) && p in s.ops && p in s'.ops && s'.ops == s.ops[p := s'.ops[p]] && s'.ops[p].pc == n
    requires s'.locks.writer == s.locks.writer || s'.locks.writer == None
    requires n.Act? ==> !n.action.DropIndex?
    ensures !Wiping(s')
  {
  }

  // ---------- get_messages ----------

  lemma CheckLiveForReadSafe(s: State, p: Pid, t: ThreadId, s': State)
    requires Performs(s, p, CheckLiveForRead(t), DoCheckLiveForRead(s, t), s')
    ensures Safe(s')
  {
    hide Safe, Disciplined, HeldBy, Goal, TableOf;
    var a, o := CheckLiveForRead(t), DoCheckLiveForRead(s, t);
    ActOk(a);
    HolderView(s, p, t);
    EndThreadMetaOk(t, Transcript([]));
    ActOk(ReadTranscript(t));
    Prepend(FreeMeta(Act(ReadTranscript(t))));
    hide ViewOf;
    QuietThreadAction(s, p, a, o, s', t);
  }

  lemma ReadTranscriptSafe(s: State, p: Pid, t: ThreadId, s': State)
    requires Performs(s, p, ReadTranscript(t), DoReadTranscript(s, t), s')
    ensures Safe(s')
  {
    hide Safe;
    var a, o := ReadTranscript(t), DoReadTranscript(s, t);
    HolderView(s, p, t);
    EndThreadOk(t, Transcript(FilesOf(s, t)));
    QuietThreadAction(s, p, a, o, s', t);
  }

  // ---------- append_message ----------

  lemma CheckLiveForAppendSafe(s: State, p: Pid, t: ThreadId, m: Message, s': State)
    requires Performs(s, p, CheckLiveForAppend(t, m), DoCheckLiveForAppend(s, t, m), s')
    ensures Safe(s')
  {
    hide Safe, Disciplined, HeldBy, Goal;
    var a, o := CheckLiveForAppend(t, m), DoCheckLiveForAppend(s, t, m);
    ActOk(a);
    HolderView(s, p, t);
    EndThreadMetaOk(t, NotFound);
    ActOk(FindDuplicate(t, m));
    Prepend(FreeMeta(Act(FindDuplicate(t, m))));
    assert ViewOf(s, t).entry.Some? == (t in TableOf(s));
    hide ViewOf, TableOf;
    QuietThreadAction(s, p, a, o, s', t);
  }

  lemma FindDuplicateSafe(s: State, p: Pid, t: ThreadId, m: Message, s': State)
    requires Performs(s, p, FindDuplicate(t, m), DoFindDuplicate(s, t, m), s')
    ensures Safe(s')
  {
    hide Safe, Disciplined, HeldBy, Goal;
    var a, o := FindDuplicate(t, m), DoFindDuplicate(s, t, m);
    ActOk(a);
    HolderView(s, p, t);
    EndThreadOk(t, Appended(GetOr(Lookup(FilesOf(s, t), m.id), m)));
    ActOk(WriteRow(t, m));
    assert ViewOf(s, t).rows == FilesOf(s, t);
    hide ViewOf, EndThread, Lookup, FilesOf;
    QuietThreadAction(s, p, a, o, s', t);
  }

  lemma UniqueAppend(rows: seq<Message>, m: Message)
    requires DeterministicIdsUnique(rows)
    requires IsDeterministicMessageId(m.id) ==> Lookup(rows, m.id).None?
    ensures DeterministicIdsUnique(rows + [m])
  {
    LookupFindsFirst(rows, m.id);
  }

  lemma WriteRowThread(s: State, t: ThreadId, m: Message)
    requires ThreadInv(ViewOf(s, t), Some(WriteRow(t, m)))
    ensures ThreadInv(ViewOf(s, t), None)
    ensures var after := WithRows(s, t, FilesOf(s, t) + [m]);
            && ThreadInv(ViewOf(after, t), Some(RecordAppend(t, m)))
            && forall u :: u != t ==> ViewOf(after, u) == ViewOf(s, u)
  {
    UniqueAppend(FilesOf(s, t), m);
    hide DeterministicIdsUnique, Lookup, Fold;
  }

  lemma WriteRowSafe(s: State, p: Pid, c: Choice, t: ThreadId, m: Message, s': State)
    requires Performs(s, p, WriteRow(t, m), DoWriteRow(s, c, t, m), s')
    ensures Safe(s')
  {
    hide Safe, Disciplined, HeldBy, Goal, ViewOf, ThreadInv;
    var a, o := WriteRow(t, m), DoWriteRow(s, c, t, m);
    ActOk(a);
    HolderView(s, p, t);
    EndThreadOk(t, IoError);
    ActOk(RecordAppend(t, m));
    Prepend(TakeMeta(Act(RecordAppend(t, m))));
    WriteRowThread(s, t, m);
    hide WithRows;
    QuietThreadAction(s, p, a, o, s', t);
  }

  /** The statistics line counts the row; without it the thread's statistics are lost. */
  lemma LogAppendThread(s: State, t: ThreadId, m: Message)
    requires ThreadInv(ViewOf(s, t), Some(LogAppend(t, m)))
    ensures ThreadInv(ViewOf(Losing(s, t), t), None)
    ensures ThreadInv(ViewOf(Logged(s, MessageAppended(t, m.createdAt)), t), None)
    ensures forall u :: u != t ==> ViewOf(Losing(s, t), u) == ViewOf(s, u)
    ensures forall u :: u != t ==> ViewOf(Logged(s, MessageAppended(t, m.createdAt)), u) == ViewOf(s, u)
  {
    var line := MessageAppended(t, m.createdAt);
    FoldAppend(s.disk.log, line);
    hide Fold, DeterministicIdsUnique;
    forall u | u != t ensures ViewOf(Logged(s, line), u) == ViewOf(s, u) {
      LoggedOthers(s, line, u);
    }
  }

  lemma LogAppendSafe(s: State, p: Pid, c: Choice, t: ThreadId, m: Message, s': State)
    requires Performs(s, p, LogAppend(t, m), DoLogAppend(s, c, t, m), s')
    ensures Safe(s')
  {
    hide Safe, Disciplined, HeldBy, Goal, ViewOf, ThreadInv;
    var a, o := LogAppend(t, m), DoLogAppend(s, c, t, m);
    ActOk(a);
    HolderView(s, p, t);
    EndThreadMetaOk(t, if c.ok then Appended(m) else IoError);
    LogAppendThread(s, t, m);
    hide Fold;
    QuietThreadAction(s, p, a, o, s', t);
  }

  /** An action on one thread that may change its history, with the index conditions shown separately. */
  lemma ThreadAction(s: State, p: Pid, a: Action, o: Outcome, s': State, t: ThreadId)
    requires Performs(s, p, a, o, s') && Continues(a, o.pc)
    requires HeldAt(a).thread && HeldAt(a).arc == Some(t) && !a.DropIndex?
    requires o.state.locks == s.locks
    requires forall u :: u != t ==> ViewOf(o.state, u) == ViewOf(s, u)
    requires o.pc.Act? ==> !o.pc.action.DropIndex?
    requires forall u :: u != t ==> PinGoal(o.pc, u).None?
    requires ThreadInv(ViewOf(o.state, t), PinGoal(o.pc, t))
    requires IndexInv(s')
    ensures Safe(s')
  {
    ActionSteps(s, p, a, o, s');
    assert HeldBy(Act(a)) == HeldAt(a);
    hide Goal, HeldBy, HeldAt, ThreadInv, LockInv, IndexInv;
    assert forall u :: ViewOf(s', u) == ViewOf(o.state, u);
    ThreadStep(s, p, t, o.pc, s');
  }

  /** The journal grows with the recorded rows, so the scan stays sound. */
  lemma RecordKeepsScan(s: State, t: ThreadId, m: Message, s': State, todo: seq<ThreadId>, idx: Index)
    requires ScanSound(s, todo, idx)
    requires s'.cache == s.cache && s'.journal == Some(s.journal.value + [(t, m)])
    requires s'.history.recorded == s.history.recorded[t := Rows(s.history.recorded, t) + [m]]
    ensures ScanSound(s', todo, idx)
  {
    forall u, id | u !in todo
      ensures OrElse(IndexGet(idx, u, id), JournalDoc(s'.journal.value, u, id)) == LookupDoc(Rows(s'.history.recorded, u), id)
    {
      JournalDocAppend(s.journal.value, t, m, u, id);
      LookupAppend(Rows(s.history.recorded, t), m, id);
      assert OrElse(IndexGet(idx, u, id), JournalDoc(s.journal.value, u, id)) == LookupDoc(Rows(s.history.recorded, u), id);
    }
  }

  lemma RecordKeepsJournal(s: State, t: ThreadId, m: Message, s': State)
    requires JournalRecorded(s)
    requires s'.journal == if s.journal.Some? then Some(s.journal.value + [(t, m)]) else None
    requires s'.history.recorded == s.history.recorded[t := Rows(s.history.recorded, t) + [m]]
    ensures JournalRecorded(s')
  {
    if s.journal.Some? {
      forall u, id | JournalDoc(s'.journal.value, u, id).Some?
        ensures LookupDoc(Rows(s'.history.recorded, u), id).Some?
      {
        JournalDocAppend(s.journal.value, t, m, u, id);
        LookupAppend(Rows(s.history.recorded, t), m, id);
      }
    }
  }

  lemma RecordKeepsBuild(s: State, t: ThreadId, m: Message, s': State, g: Action)
    requires BuildInv(s, g)
    requires s'.cache == s.cache && s'.journal == if s.journal.Some? then Some(s.journal.value + [(t, m)]) else None
    requires s'.history.recorded == s.history.recorded[t := Rows(s.history.recorded, t) + [m]]
    requires s'.history.settled == s.history.settled
    ensures BuildInv(s', g)
  {
    match g
    case ScanThread(u, rest, idx) => RecordKeepsScan(s, t, m, s', [u] + rest, idx);
    case DrainJournal(idx) => RecordKeepsScan(s, t, m, s', [], idx);
    case _ =>
  }

  lemma RecordAppendIndex(s: State, p: Pid, t: ThreadId, m: Message, s': State)
    requires Performs(s, p, RecordAppend(t, m), DoRecordAppend(s, t, m), s')
    ensures IndexInv(s')
  {
    hide ThreadsInv, LockInv, JournalRecorded, ScanSound, IndexSettled;
    assert JournalRecorded(s);
    RecordKeepsJournal(s, t, m, s');
    if s.cache.Some? {
      SameSettled(s, s', s.cache.value);
    }
    forall q | q in s'.ops && Goal(s'.ops[q].pc).Some?
      ensures BuildInv(s', Goal(s'.ops[q].pc).value)
    {
      if q != p {
        RecordKeepsBuild(s, t, m, s', Goal(s.ops[q].pc).value);
      }
    }
  }

  lemma SafeParts(s: State)
    requires Safe(s)
    ensures LockInv(s) && IndexInv(s)
  {
  }

  lemma SameSettled(s: State, s': State, idx: Index)
    requires s'.history.settled == s.history.settled && IndexSettled(s, idx)
    ensures IndexSettled(s', idx)
  {
  }

  lemma RecordAppendSafe(s: State, p: Pid, t: ThreadId, m: Message, s': State)
    requires Performs(s, p, RecordAppend(t, m), DoRecordAppend(s, t, m), s')
    ensures Safe(s')
  {
    hide Safe, IndexInv, Disciplined, HeldBy, Goal;
    var a, o := RecordAppend(t, m), DoRecordAppend(s, t, m);
    ActOk(a);
    RecordAppendIndex(s, p, t, m, s');
    HolderView(s, p, t);
    ActOk(IndexAppend(t, m));
    hide Fold;
    ThreadAction(s, p, a, o, s', t);
  }

  /** The holder of the metadata lock excludes a publication in progress elsewhere. */
  lemma MetadataAlone(s: State, p: Pid, q: Pid)
    requires LockInv(s) && p in s.ops && q in s.ops && p != q && HeldBy(s.ops[p].pc).metadata
    ensures Goal(s.ops[q].pc).Some? ==> !PinsMeta(Goal(s.ops[q].pc).value)
  {
    assert OpLocks(s, p) && OpLocks(s, q);
  }

  /** The holder of the build lock excludes every other builder. */
  lemma BuildAlone(s: State, p: Pid, q: Pid)
    requires LockInv(s) && p in s.ops && q in s.ops && p != q && HeldBy(s.ops[p].pc).build
    ensures Goal(s.ops[q].pc).Some? ==> !PinsBuild(Goal(s.ops[q].pc).value)
  {
    assert OpLocks(s, p) && OpLocks(s, q);
  }

  /** A holder of the build lock that is not building sees no journal. */
  lemma NoJournal(s: State, p: Pid)
    requires Safe(s) && p in s.ops && HeldBy(s.ops[p].pc).build
    requires Goal(s.ops[p].pc).Some? ==> !IsBuilder(Goal(s.ops[p].pc).value)
    ensures s.journal.None?
  {
    assert OpLocks(s, p);
  }

  lemma InsertKeepsSettled(s: State, t: ThreadId, m: Message, s': State, idx: Index)
    requires IndexSettled(s, idx)
    requires s'.history.settled == s.history.settled[t := Rows(s.history.settled, t) + [m]]
    ensures IndexSettled(s', IndexInsert(idx, t, m))
  {
    forall u, id ensures IndexGet(IndexInsert(idx, t, m), u, id) == LookupDoc(Rows(s'.history.settled, u), id) {
      LookupAppend(Rows(s.history.settled, t), m, id);
      assert IndexGet(idx, u, id) == LookupDoc(Rows(s.history.settled, u), id);
      assert IndexGet(idx, t, m.id) == LookupDoc(Rows(s.history.settled, t), m.id);
    }
  }

  lemma IndexAppendIndex(s: State, p: Pid, t: ThreadId, m: Message, s': State)
    requires Performs(s, p, IndexAppend(t, m), DoIndexAppend(s, t, m), s')
    ensures IndexInv(s')
  {
    hide Safe, LockInv, IndexSettled;
    SafeParts(s);
    assert HeldBy(s.ops[p].pc).metadata;
    if s.cache.Some? {
      InsertKeepsSettled(s, t, m, s', s.cache.value);
    }
    forall q | q in s'.ops && Goal(s'.ops[q].pc).Some?
      ensures BuildInv(s', Goal(s'.ops[q].pc).value)
    {
      if q != p {
        MetadataAlone(s, p, q);
        assert BuildInv(s, Goal(s.ops[q].pc).value);
      }
    }
  }

  lemma IndexAppendView(v: View, t: ThreadId, m: Message)
    requires ThreadInv(v, Some(IndexAppend(t, m)))
    ensures ThreadInv(v.(settled := v.settled + [m]), Some(LogAppend(t, m)))
  {
    hide DeterministicIdsUnique, StatsAgree;
    assert v.rows == v.settled + [m];
    assert v.rows[..|v.rows| - 1] == v.settled;
  }

  lemma IndexAppendThread(s: State, t: ThreadId, m: Message)
    requires ThreadInv(ViewOf(s, t), Some(IndexAppend(t, m)))
    ensures ThreadInv(ViewOf(DoIndexAppend(s, t, m).state, t), Some(LogAppend(t, m)))
    ensures forall u :: u != t ==> ViewOf(DoIndexAppend(s, t, m).state, u) == ViewOf(s, u)
  {
    hide ThreadInv, Fold, IndexInsert;
    var v, after := ViewOf(s, t), DoIndexAppend(s, t, m).state;
    IndexAppendView(v, t, m);
    assert ViewOf(after, t) == v.(settled := v.settled + [m]);
  }

  lemma IndexAppendSafe(s: State, p: Pid, t: ThreadId, m: Message, s': State)
    requires Performs(s, p, IndexAppend(t, m), DoIndexAppend(s, t, m), s')
    ensures Safe(s')
  {
    hide Safe, IndexInv, Disciplined, HeldBy, Goal, ThreadInv, ViewOf;
    var a, o := IndexAppend(t, m), DoIndexAppend(s, t, m);
    ActOk(a);
    IndexAppendIndex(s, p, t, m, s');
    HolderView(s, p, t);
    ActOk(LogAppend(t, m));
    IndexAppendThread(s, t, m);
    ThreadAction(s, p, a, o, s', t);
  }

  // ---------- update_message ----------

  /** Patching metadata changes no id, no timestamp and no indexed document. */
  lemma {:induction false} PatchedShape(rows: seq<Message>, id: MessageId, metadata: Option<string>)
    ensures |Patched(rows, id, metadata)| == |rows|
    ensures forall i :: 0 <= i < |rows| ==>
              Patched(rows, id, metadata)[i].id == rows[i].id
              && Patched(rows, id, metadata)[i].createdAt == rows[i].createdAt
              && DocOf(Patched(rows, id, metadata)[i]) == DocOf(rows[i])
  {
    if rows != [] && rows[0].id != id {
      PatchedShape(rows[1..], id, metadata);
      assert forall i :: 0 < i < |rows| ==> rows[i] == rows[1..][i - 1];
    }
  }

  lemma {:induction false} SameDocs(before: seq<Message>, after: seq<Message>, id: MessageId)
    requires |before| == |after|
    requires forall i :: 0 <= i < |before| ==> after[i].id == before[i].id && DocOf(after[i]) == DocOf(before[i])
    ensures LookupDoc(after, id) == LookupDoc(before, id)
  {
    if before != [] {
      SameDocs(before[..|before| - 1], after[..|after| - 1], id);
    }
  }

  /** Changing rows without changing their documents keeps the index conditions. */
  lemma PatchKeepsBuild(s: State, s': State, a: Action)
    requires BuildInv(s, a)
    requires s'.cache == s.cache && s'.journal == s.journal
    requires forall u, id :: LookupDoc(Rows(s'.history.recorded, u), id) == LookupDoc(Rows(s.history.recorded, u), id)
    requires forall u, id :: LookupDoc(Rows(s'.history.settled, u), id) == LookupDoc(Rows(s.history.settled, u), id)
    ensures BuildInv(s', a)
  {
    hide LookupDoc, JournalDoc, IndexGet, Rows;
  }

  lemma PatchKeepsSettled(s: State, s': State, idx: Index)
    requires IndexSettled(s, idx)
    requires forall u, id :: LookupDoc(Rows(s'.history.settled, u), id) == LookupDoc(Rows(s.history.settled, u), id)
    ensures IndexSettled(s', idx)
  {
    hide LookupDoc, IndexGet, Rows;
  }

  lemma PatchKeepsJournal(s: State, s': State)
    requires JournalRecorded(s) && s'.journal == s.journal
    requires forall u, id :: LookupDoc(Rows(s'.history.recorded, u), id) == LookupDoc(Rows(s.history.recorded, u), id)
    ensures JournalRecorded(s')
  {
    hide LookupDoc, JournalDoc, Rows;
  }

  lemma PatchKeepsDocs(s: State, c: Choice, t: ThreadId, id: MessageId, metadata: Option<string>)
    requires Level(ViewOf(s, t))
    ensures var after := DoPatchRow(s, c, t, id, metadata).state;
            && after == s.(disk := after.disk, history := after.history)
            && forall u, i ::
                 && LookupDoc(Rows(after.history.recorded, u), i) == LookupDoc(Rows(s.history.recorded, u), i)
                 && LookupDoc(Rows(after.history.settled, u), i) == LookupDoc(Rows(s.history.settled, u), i)
  {
    var after := DoPatchRow(s, c, t, id, metadata).state;
    PatchedShape(FilesOf(s, t), id, metadata);
    hide Patched;
    forall u, i
      ensures LookupDoc(Rows(after.history.recorded, u), i) == LookupDoc(Rows(s.history.recorded, u), i)
      ensures LookupDoc(Rows(after.history.settled, u), i) == LookupDoc(Rows(s.history.settled, u), i)
    {
      SameDocs(FilesOf(s, t), Patched(FilesOf(s, t), id, metadata), i);
    }
  }

  lemma PatchRowIndex(s: State, p: Pid, c: Choice, t: ThreadId, id: MessageId, metadata: Option<string>, s': State)
    requires Performs(s, p, PatchRow(t, id, metadata), DoPatchRow(s, c, t, id, metadata), s')
    requires Level(ViewOf(s, t))
    requires Goal(s'.ops[p].pc).None?
    ensures IndexInv(s')
  {
    SafeParts(s);
    assert HeldBy(s.ops[p].pc) == HeldAt(s.ops[p].pc.action);
    hide Safe, LockInv, Goal, HeldBy, JournalRecorded, IndexSettled, BuildInv;
    BuildHolder(s, p);
    PatchKeepsDocs(s, c, t, id, metadata);
    hide Patched, ViewOf, LookupDoc, JournalDoc, DoPatchRow;
    PatchKeepsJournal(s, s');
    if s.cache.Some? {
      PatchKeepsSettled(s, s', s.cache.value);
    }
    forall q | q in s'.ops && Goal(s'.ops[q].pc).Some?
      ensures BuildInv(s', Goal(s'.ops[q].pc).value)
    {
      if q != p {
        PatchKeepsBuild(s, s', Goal(s.ops[q].pc).value);
      }
    }
  }

  lemma BuildHolder(s: State, p: Pid)
    requires LockInv(s) && p in s.ops
    ensures s.locks.build == Some(p) <==> HeldBy(s.ops[p].pc).build
  {
    assert OpLocks(s, p);
  }

  lemma PatchRowThread(s: State, t: ThreadId, id: MessageId, metadata: Option<string>)
    requires ThreadInv(ViewOf(s, t), None)
    ensures var patched := Patched(FilesOf(s, t), id, metadata);
            var after := Settled(WithRows(s, t, patched), t, patched);
            && ThreadInv(ViewOf(after, t), None)
            && forall u :: u != t ==> ViewOf(after, u) == ViewOf(s, u)
  {
    PatchedShape(FilesOf(s, t), id, metadata);
    hide Fold, Patched, DocOf;
  }

  lemma PatchRowSafe(s: State, p: Pid, c: Choice, t: ThreadId, id: MessageId, metadata: Option<string>, s': State)
    requires Performs(s, p, PatchRow(t, id, metadata), DoPatchRow(s, c, t, id, metadata), s')
    ensures Safe(s')
  {
    hide Safe, IndexInv, Disciplined, HeldBy, Goal;
    var a, o := PatchRow(t, id, metadata), DoPatchRow(s, c, t, id, metadata);
    ActOk(a);
    HolderView(s, p, t);
    EndThreadOk(t, o.pc.next.next.next.response);
    assert PinGoal(Act(a), t).None?;
    assert Level(ViewOf(s, t));
    hide ViewOf, ThreadInv, Patched, Lookup;
    PatchRowIndex(s, p, c, t, id, metadata, s');
    PatchRowThread(s, t, id, metadata);
    ThreadAction(s, p, a, o, s', t);
  }

  // ---------- delete_messages_from ----------

  lemma CutThread(s: State, t: ThreadId, kept: seq<Message>)
    requires ThreadInv(ViewOf(s, t), None) && kept <= FilesOf(s, t) && FilesOf(s, t) != []
    ensures ThreadInv(ViewOf(WithRows(s, t, kept), t), Some(RebuildIndex(t, kept, |FilesOf(s, t)| - |kept|)))
    ensures forall u :: u != t ==> ViewOf(WithRows(s, t, kept), u) == ViewOf(s, u)
  {
    hide Fold;
  }

  lemma CutContinues(s: State, c: Choice, t: ThreadId, id: MessageId)
    ensures var a, o := CutTranscript(t, id), DoCutTranscript(s, c, t, id);
            var rows, cut := FilesOf(s, t), CutPoint(FilesOf(s, t), id);
            && Continues(a, o.pc) && (o.pc.Act? ==> !o.pc.action.DropIndex?)
            && if cut < |rows| && c.ok then
                 o.state == WithRows(s, t, rows[..cut]) && Goal(o.pc) == Some(RebuildIndex(t, rows[..cut], |rows| - cut))
               else o.state == s && Goal(o.pc).None?
  {
    hide Disciplined, HeldBy, Goal, CutPoint, FilesOf, WithRows;
    EndBuildThreadOk(t, IoError);
    EndBuildThreadOk(t, Truncated(None));
    assert !EndBuildThread(t, IoError).Act? && !EndBuildThread(t, Truncated(None)).Act?;
    hide EndBuildThread;
    var rows, cut := FilesOf(s, t), CutPoint(FilesOf(s, t), id);
    if cut < |rows| {
      ActOk(RebuildIndex(t, rows[..cut], |rows| - cut));
    }
  }

  lemma CutTranscriptSafe(s: State, p: Pid, c: Choice, t: ThreadId, id: MessageId, s': State)
    requires Performs(s, p, CutTranscript(t, id), DoCutTranscript(s, c, t, id), s')
    ensures Safe(s')
  {
    hide Safe, IndexInv, Disciplined, HeldBy, Goal, ViewOf, ThreadInv, CutPoint, FilesOf, DoCutTranscript, Continues;
    var a, o := CutTranscript(t, id), DoCutTranscript(s, c, t, id);
    ActOk(a);
    assert PinGoal(Act(a), t).None?;
    HolderView(s, p, t);
    NoJournal(s, p);
    CutContinues(s, c, t, id);
    var rows, cut := FilesOf(s, t), CutPoint(FilesOf(s, t), id);
    if cut < |rows| && c.ok {
      CutThread(s, t, rows[..cut]);
    }
    QuietThreadAction(s, p, a, o, s', t);
  }

  lemma RebuildKeepsSettled(s: State, t: ThreadId, kept: seq<Message>, s': State, idx: Index)
    requires IndexSettled(s, idx)
    requires s'.history.settled == s.history.settled[t := kept]
    ensures IndexSettled(s', IndexInsertAll(IndexRemoveThread(idx, t), t, kept))
  {
    RebuildMirrors(idx, t, kept);
    forall u, id
      ensures IndexGet(IndexInsertAll(IndexRemoveThread(idx, t), t, kept), u, id) == LookupDoc(Rows(s'.history.settled, u), id)
    {
      assert IndexGet(idx, u, id) == LookupDoc(Rows(s.history.settled, u), id);
      assert Mirrors(IndexInsertAll(IndexRemoveThread(idx, t), t, kept), t, kept);
    }
  }

  lemma RebuildIndexIndex(s: State, p: Pid, t: ThreadId, kept: seq<Message>, removed: nat, s': State)
    requires Performs(s, p, RebuildIndex(t, kept, removed), DoRebuildIndex(s, t, kept, removed), s')
    ensures IndexInv(s')
  {
    hide Safe, LockInv, IndexSettled;
    SafeParts(s);
    NoJournal(s, p);
    if s.cache.Some? {
      RebuildKeepsSettled(s, t, kept, s', s.cache.value);
    }
    assert HeldBy(s.ops[p].pc).build;
    forall q | q in s'.ops && Goal(s'.ops[q].pc).Some?
      ensures BuildInv(s', Goal(s'.ops[q].pc).value)
    {
      if q != p {
        BuildAlone(s, p, q);
        assert BuildInv(s, Goal(s.ops[q].pc).value);
      }
    }
  }

  lemma RebuildThread(s: State, t: ThreadId, kept: seq<Message>, removed: nat)
    requires ThreadInv(ViewOf(s, t), Some(RebuildIndex(t, kept, removed)))
    ensures var after := DoRebuildIndex(s, t, kept, removed).state;
            && ThreadInv(ViewOf(after, t), Some(LogStats(t, kept, removed)))
            && forall u :: u != t ==> ViewOf(after, u) == ViewOf(s, u)
  {
    hide Fold, DeterministicIdsUnique, IndexInsertAll, IndexRemoveThread;
  }

  lemma RebuildIndexSafe(s: State, p: Pid, t: ThreadId, kept: seq<Message>, removed: nat, s': State)
    requires Performs(s, p, RebuildIndex(t, kept, removed), DoRebuildIndex(s, t, kept, removed), s')
    ensures Safe(s')
  {
    hide Safe, IndexInv, Disciplined, HeldBy, Goal, ThreadInv, ViewOf;
    var a, o := RebuildIndex(t, kept, removed), DoRebuildIndex(s, t, kept, removed);
    ActOk(a);
    RebuildIndexIndex(s, p, t, kept, removed, s');
    HolderView(s, p, t);
    ActOk(LogStats(t, kept, removed));
    Prepend(TakeMeta(Act(LogStats(t, kept, removed))));
    RebuildThread(s, t, kept, removed);
    ThreadAction(s, p, a, o, s', t);
  }

  /** The measured statistics agree with the kept rows; without them they are lost. */
  lemma LogStatsThread(s: State, t: ThreadId, kept: seq<Message>, removed: nat, line: LogEntry)
    requires ThreadInv(ViewOf(s, t), Some(LogStats(t, kept, removed)))
    requires t in TableOf(s) ==> line == Stats(t, |kept|, LastAt(TableOf(s)[t], kept))
    ensures ThreadInv(ViewOf(Losing(s, t), t), None)
    ensures ThreadInv(ViewOf(Regained(Logged(s, line), t), t), None)
    ensures forall u :: u != t ==> ViewOf(Losing(s, t), u) == ViewOf(s, u)
    ensures forall u :: u != t ==> ViewOf(Regained(Logged(s, line), t), u) == ViewOf(s, u)
  {
    FoldAppend(s.disk.log, line);
    hide Fold, DeterministicIdsUnique;
    forall u | u != t ensures ViewOf(Regained(Logged(s, line), t), u) == ViewOf(s, u) {
      LoggedOthers(s, line, u);
    }
  }

  lemma LogStatsSafe(s: State, p: Pid, c: Choice, t: ThreadId, kept: seq<Message>, removed: nat, s': State)
    requires Performs(s, p, LogStats(t, kept, removed), DoLogStats(s, c, t, kept, removed), s')
    ensures Safe(s')
  {
    hide Safe, IndexInv, Disciplined, HeldBy, Goal;
    var a, o := LogStats(t, kept, removed), DoLogStats(s, c, t, kept, removed);
    ActOk(a);
    HolderView(s, p, t);
    NoJournal(s, p);
    EndBuildThreadOk(t, if c.ok then Truncated(Some(removed)) else IoError);
    Prepend(FreeMeta(EndBuildThread(t, if c.ok then Truncated(Some(removed)) else IoError)));
    var last := if kept != [] then kept[|kept| - 1].createdAt else if t in TableOf(s) then TableOf(s)[t].createdAt else "";
    hide ViewOf, ThreadInv, Fold, EndBuildThread;
    LogStatsThread(s, t, kept, removed, Stats(t, |kept|, last));
    QuietThreadAction(s, p, a, o, s', t);
  }

  // ---------- delete_thread ----------

  lemma DeletedIsAbsent(table: Table, t: ThreadId, deletedAt: string)
    ensures t !in ApplyEntry(table, LogEntry.Delete(t, deletedAt))
  {
  }

  lemma TombstoneView(s: State, t: ThreadId, deletedAt: string, after: State)
    requires after == Regained(Logged(s, LogEntry.Delete(t, deletedAt)), t)
    ensures ViewOf(after, t) == ViewOf(s, t).(entry := None, lost := false)
    ensures forall u :: u != t ==> ViewOf(after, u) == ViewOf(s, u)
  {
    var line := LogEntry.Delete(t, deletedAt);
    hide Fold, ApplyEntry, NormalizedLabels;
    FoldAppend(s.disk.log, line);
    DeletedIsAbsent(Fold(s.disk.log), t, deletedAt);
    forall u | u != t ensures ViewOf(after, u) == ViewOf(s, u) {
      LoggedOthers(s, line, u);
    }
  }

  /** The tombstone makes the thread dead; its rows and documents go next. */
  lemma TombstoneKills(s: State, t: ThreadId, deletedAt: string, after: State)
    requires ThreadInv(ViewOf(s, t), None)
    requires after == Regained(Logged(s, LogEntry.Delete(t, deletedAt)), t)
    ensures ThreadInv(ViewOf(after, t), Some(RemoveFile(t)))
    ensures forall u :: u != t ==> ViewOf(after, u) == ViewOf(s, u)
  {
    hide ViewOf, Fold, DeterministicIdsUnique, StatsAgree;
    TombstoneView(s, t, deletedAt, after);
  }

  lemma AbsentHasNothing(s: State, t: ThreadId)
    requires t !in TableOf(s) && ThreadInv(ViewOf(s, t), None)
    ensures ThreadInv(ViewOf(s, t), Some(EvictLock(t, false)))
  {
  }

  lemma TombstoneContinues(s: State, c: Choice, t: ThreadId, deletedAt: string)
    ensures Continues(Tombstone(t, deletedAt), DoTombstone(s, c, t, deletedAt).pc)
    ensures Goal(DoTombstone(s, c, t, deletedAt).pc) ==
              (if t !in TableOf(s) then Some(EvictLock(t, false)) else if c.ok then Some(RemoveFile(t)) else None)
  {
    hide TableOf, Disciplined, HeldBy, Goal, Fold, Regained, Logged;
    EndWriteThreadOk(t, IoError);
    Prepend(FreeMeta(EndWriteThread(t, IoError)));
    ActOk(RemoveFile(t));
    Prepend(FreeMeta(Act(RemoveFile(t))));
    ActOk(EvictLock(t, false));
    hide EndWriteThread;
  }

  lemma TombstoneSafe(s: State, p: Pid, c: Choice, t: ThreadId, deletedAt: string, s': State)
    requires Performs(s, p, Tombstone(t, deletedAt), DoTombstone(s, c, t, deletedAt), s')
    ensures Safe(s')
  {
    hide Safe, IndexInv;
    var a, o := Tombstone(t, deletedAt), DoTombstone(s, c, t, deletedAt);
    HolderView(s, p, t);
    TombstoneContinues(s, c, t, deletedAt);
    assert PinGoal(Act(a), t).None?;
    hide ViewOf, ThreadInv, TableOf, Disciplined, HeldBy, Goal;
    if t !in TableOf(s) {
      AbsentHasNothing(s, t);
    } else if c.ok {
      TombstoneKills(s, t, deletedAt, o.state);
    }
    QuietThreadAction(s, p, a, o, s', t);
  }

  lemma RemoveFileSafe(s: State, p: Pid, t: ThreadId, s': State)
    requires Performs(s, p, RemoveFile(t), DoRemoveFile(s, t), s')
    ensures Safe(s')
  {
    hide Safe, IndexInv;
    var a, o := RemoveFile(t), DoRemoveFile(s, t);
    HolderView(s, p, t);
    assert Continues(a, o.pc);
    QuietThreadAction(s, p, a, o, s', t);
  }

  lemma EvictThread(s: State, t: ThreadId, existed: bool)
    requires ThreadInv(ViewOf(s, t), Some(EvictLock(t, existed)))
    ensures ThreadInv(ViewOf(s, t), if existed then Some(DropThreadDocs(t)) else None)
  {
    hide ViewOf;
  }

  lemma EvictLockSafe(s: State, p: Pid, t: ThreadId, existed: bool, s': State)
    requires Performs(s, p, EvictLock(t, existed), DoEvictLock(s, t, existed), s')
    ensures Safe(s')
  {
    hide Safe, IndexInv, Disciplined, HeldBy, Goal;
    var a, o := EvictLock(t, existed), DoEvictLock(s, t, existed);
    ActOk(a);
    HolderView(s, p, t);
    EndWriteThreadOk(t, Deleted(false));
    Prepend(FreeMeta(EndWriteThread(t, Deleted(false))));
    ActOk(DropThreadDocs(t));
    EvictThread(s, t, existed);
    hide ViewOf, ThreadInv, EndWriteThread;
    QuietThreadAction(s, p, a, o, s', t);
  }

  /** While an operation holds the lifecycle write guard, no other has an action in progress that the index depends on. */
  lemma WriterBuildsAlone(s: State, p: Pid, q: Pid, s': State)
    requires LockInv(s) && p in s.ops && q in s.ops && p != q && HeldBy(s.ops[p].pc).write
    requires Goal(s.ops[q].pc).Some?
    ensures BuildInv(s', Goal(s.ops[q].pc).value)
  {
    WriterAlone(s, p, q);
    assert OpLocks(s, q);
  }

  lemma WriterSeesNoJournal(s: State, p: Pid)
    requires Safe(s) && p in s.ops && HeldBy(s.ops[p].pc).write && s.ops[p].pc.Act?
    ensures s.journal.None?
  {
    assert OpLocks(s, p);
    if s.journal.Some? {
      var b := s.locks.build.value;
      assert OpLocks(s, b);
      if b != p {
        WriterAlone(s, p, b);
      }
    }
  }

  lemma DropKeepsSettled(s: State, t: ThreadId, s': State, idx: Index)
    requires IndexSettled(s, idx)
    requires s'.history.settled == s.history.settled[t := []]
    ensures IndexSettled(s', IndexRemoveThread(idx, t))
  {
    assert IndexInsertAll(IndexRemoveThread(idx, t), t, []) == IndexRemoveThread(idx, t);
    RebuildKeepsSettled(s, t, [], s', idx);
  }

  lemma DropThreadDocsSafe(s: State, p: Pid, t: ThreadId, s': State)
    requires Performs(s, p, DropThreadDocs(t), DoDropThreadDocs(s, t), s')
    ensures Safe(s')
  {
    hide Safe, LockInv, IndexSettled, Disciplined, HeldBy, Goal;
    var a, o := DropThreadDocs(t), DoDropThreadDocs(s, t);
    ActOk(a);
    HolderView(s, p, t);
    EndWriteThreadOk(t, Deleted(true));
    if s.cache.Some? {
      CacheSettled(s);
      DropKeepsSettled(s, t, s', s.cache.value);
    }
    WriterIndexInv(s, p, o.pc, s');
    hide IndexInv, Fold, EndWriteThread;
    ThreadAction(s, p, a, o, s', t);
  }

  // ---------- purge_threads ----------

  lemma PartsSafe(s: State)
    requires LockInv(s) && IndexInv(s) && if Wiping(s) then FilesWiped(s) else ThreadsInv(s)
    ensures Safe(s)
  {
  }

  /** The writer of the lifecycle lock works without a journal and without builders. */
  lemma WriterIndexInv(s: State, p: Pid, n: Pc, s': State)
    requires Safe(s) && p in s.ops && HeldBy(s.ops[p].pc).write && s.ops[p].pc.Act?
    requires s'.ops == s.ops[p := s.ops[p].(pc := n)] && s'.journal == s.journal
    requires s'.cache.Some? ==> IndexSettled(s', s'.cache.value)
    requires Goal(n).Some? ==> PinsWrite(Goal(n).value)
    ensures IndexInv(s')
  {
    WriterSeesNoJournal(s, p);
    SafeParts(s);
    hide LockInv, IndexSettled;
    forall q | q in s'.ops && Goal(s'.ops[q].pc).Some?
      ensures BuildInv(s', Goal(s'.ops[q].pc).value)
    {
      if q != p {
        WriterBuildsAlone(s, p, q, s');
      }
    }
  }

  lemma WriterPid(s: State, p: Pid)
    requires LockInv(s) && p in s.ops
    ensures HeldBy(s.ops[p].pc).write <==> s.locks.writer == Some(p)
  {
    assert OpLocks(s, p);
  }

  lemma WipeFilesSafe(s: State, p: Pid, s': State)
    requires Performs(s, p, WipeFiles, DoWipeFiles(s), s')
    ensures Safe(s')
  {
    hide Safe, ThreadsInv, IndexInv, LockInv, IndexSettled;
    var o := DoWipeFiles(s);
    SafeParts(s);
    WriterPid(s, p);
    ActionSteps(s, p, WipeFiles, o, s');
    if s.cache.Some? {
      CacheSettled(s);
      SameSettled(s, s', s.cache.value);
    }
    WriterIndexInv(s, p, o.pc, s');
    PartsSafe(s');
  }

  lemma CacheSettled(s: State)
    requires Safe(s) && s.cache.Some?
    ensures IndexSettled(s, s.cache.value)
  {
  }

  /** After the wipe every thread is gone. */
  lemma EmptyThreads(s: State, w: Pid)
    requires LockInv(s) && w in s.ops && HeldBy(s.ops[w].pc).write && s.ops[w].pc.Act? && PinnedThread(s.ops[w].pc.action).None?
    requires FilesWiped(s) && s.history == History(map[], map[], {})
    ensures ThreadsInv(s)
  {
    forall q, t | q in s.ops ensures PinGoal(s.ops[q].pc, t).None? {
      if q != w {
        WriterAlone(s, w, q);
        assert OpLocks(s, q);
      }
    }
    assert forall t :: ThreadInv(ViewOf(s, t), None);
  }

  lemma DropIndexSafe(s: State, p: Pid, counts: map<ThreadId, nat>, s': State)
    requires Performs(s, p, DropIndex(counts), DoDropIndex(s, counts), s')
    ensures Safe(s')
  {
    hide ThreadsInv, IndexInv, LockInv;
    var a, o := DropIndex(counts), DoDropIndex(s, counts);
    SafeParts(s);
    WriterPid(s, p);
    assert FilesWiped(s);
    hide Safe;
    ActionSteps(s, p, a, o, s');
    EmptyThreads(s', p);
    WriterIndexInv(s, p, o.pc, s');
    PartsSafe(s');
  }

  lemma ClearLocksContinues(s: State, counts: map<ThreadId, nat>)
    ensures Continues(ClearLocks(counts), DoClearLocks(s, counts).pc)
    ensures Goal(DoClearLocks(s, counts).pc).None?
  {
    assert Disciplined(Done(Purged(counts)));
    assert Disciplined(FreeWrite(Done(Purged(counts))));
  }

  lemma ClearLocksSafe(s: State, p: Pid, counts: map<ThreadId, nat>, s': State)
    requires Performs(s, p, ClearLocks(counts), DoClearLocks(s, counts), s')
    ensures Safe(s')
  {
    hide Safe, ThreadsInv, IndexInv, LockInv, ViewOf, IndexSettled;
    var a, o := ClearLocks(counts), DoClearLocks(s, counts);
    ClearLocksContinues(s, counts);
    SafeParts(s);
    HolderNotWiping(s, p);
    ActionSteps(s, p, a, o, s');
    if s.cache.Some? {
      CacheSettled(s);
      SameSettled(s, s', s.cache.value);
    }
    WriterIndexInv(s, p, o.pc, s');
    assert forall u :: PinGoal(Act(a), u).None? && PinGoal(o.pc, u).None?;
    hide Goal, HeldBy, Disciplined;
    assert forall u :: ViewOf(s', u) == ViewOf(s, u) by {
      SameViews(s, s');
    }
    NoThreadStep(s, p, o.pc, s');
    NotWipingAfter(s, p, o.pc, s');
    PartsSafe(s');
  }

  lemma SameViews(s: State, s': State)
    requires s'.disk == s.disk && s'.history == s.history
    ensures forall u :: ViewOf(s', u) == ViewOf(s, u)
  {
  }

  // ---------- search_cross_thread_messages and the cold build ----------

  lemma PeekCacheSafe(s: State, p: Pid, s': State)
    requires Performs(s, p, PeekCache, DoPeekCache(s), s')
    ensures Safe(s')
  {
    hide Safe, Disciplined, HeldBy, Goal;
    ActOk(QueryIndex);
    ActOk(PeekCacheLocked);
    Prepend(TakeBuild(Act(PeekCacheLocked)));
    UnpinnedAction(s, p, PeekCache, DoPeekCache(s), s');
  }

  lemma PeekCacheLockedSafe(s: State, p: Pid, s': State)
    requires Performs(s, p, PeekCacheLocked, DoPeekCacheLocked(s), s')
    ensures Safe(s')
  {
    hide Safe, Disciplined, HeldBy, Goal;
    ActOk(QueryIndex);
    Prepend(FreeBuild(Act(QueryIndex)));
    ActOk(BeginJournal);
    UnpinnedAction(s, p, PeekCacheLocked, DoPeekCacheLocked(s), s');
  }

  lemma QueryIndexSafe(s: State, p: Pid, s': State)
    requires Performs(s, p, QueryIndex, DoQueryIndex(s), s')
    ensures Safe(s')
  {
    hide Safe;
    EndReadOk(DoQueryIndex(s).pc.next.response);
    UnpinnedAction(s, p, QueryIndex, DoQueryIndex(s), s');
  }

  lemma BuildActionIndex(s: State, p: Pid, n: Pc, s': State)
    requires LockInv(s) && IndexInv(s) && p in s.ops && HeldBy(s.ops[p].pc).build && s.locks.build == Some(p)
    requires s'.ops == s.ops[p := s.ops[p].(pc := n)] && s'.locks.build == s.locks.build && s'.history == s.history
    requires s.cache.Some? ==> s'.cache.Some?
    requires s'.cache.Some? ==> IndexSettled(s, s'.cache.value)
    requires s'.journal.Some? ==> Goal(n).Some? && IsBuilder(Goal(n).value)
    requires JournalRecorded(s')
    requires Goal(n).Some? ==> BuildInv(s', Goal(n).value)
    ensures IndexInv(s')
  {
    hide HeldBy, LockInv, JournalRecorded, Goal;
    if s'.cache.Some? {
      SameSettled(s, s', s'.cache.value);
    }
    hide IndexSettled, ScanSound;
    forall q | q in s'.ops && Goal(s'.ops[q].pc).Some?
      ensures BuildInv(s', Goal(s'.ops[q].pc).value)
    {
      if q != p {
        BuildAlone(s, p, q);
        assert BuildInv(s, Goal(s.ops[q].pc).value);
      }
    }
  }

  /** A build action: no thread is touched, the builder alone changes cache and journal. */
  lemma BuildAction(s: State, p: Pid, a: Action, o: Outcome, s': State)
    requires Performs(s, p, a, o, s') && Continues(a, o.pc)
    requires HeldAt(a).build && HeldAt(a).read && PinnedThread(a).None?
    requires o.state == s.(cache := o.state.cache, journal := o.state.journal)
    requires s.cache.Some? ==> o.state.cache.Some?
    requires forall u :: PinGoal(o.pc, u).None?
    requires o.pc.Act? ==> !o.pc.action.DropIndex?
    requires o.state.cache.Some? ==> IndexSettled(s, o.state.cache.value)
    requires o.state.journal.Some? ==> Goal(o.pc).Some? && IsBuilder(Goal(o.pc).value)
    requires JournalRecorded(s')
    requires Goal(o.pc).Some? ==> BuildInv(s', Goal(o.pc).value)
    ensures Safe(s')
  {
    hide Safe, ThreadsInv, JournalRecorded, Disciplined;
    assert HeldBy(Act(a)) == HeldAt(a) && forall u :: PinGoal(Act(a), u).None?;
    SafeParts(s);
    ActionSteps(s, p, a, o, s');
    HolderNotWiping(s, p);
    BuildHolder(s, p);
    hide LockInv, Goal, HeldBy;
    BuildActionIndex(s, p, o.pc, s');
    hide IndexInv;
    SameViews(s, s');
    hide ViewOf;
    NoThreadStep(s, p, o.pc, s');
    NotWipingAfter(s, p, o.pc, s');
    PartsSafe(s');
  }

  lemma BeginJournalSafe(s: State, p: Pid, s': State)
    requires Performs(s, p, BeginJournal, DoBeginJournal(s), s')
    ensures Safe(s')
  {
    hide Safe, LockInv;
    SafeParts(s);
    assert Disciplined(Act(SnapshotThreads));
    assert BuildInv(s, BeginJournal);
    BuildAction(s, p, BeginJournal, DoBeginJournal(s), s');
  }

  /** A thread that is not in the log has no recorded row while readers are at work. */
  lemma DeadThreadEmpty(s: State, p: Pid, t: ThreadId)
    requires Safe(s) && !Wiping(s) && p in s.ops && HeldBy(s.ops[p].pc).read
    requires t !in TableOf(s)
    ensures Rows(s.history.recorded, t) == []
  {
    SafeThreads(s);
    hide Fold, HeldBy, Goal, PinnedThread, IndexInv;
    if q :| q in s.ops && PinGoal(s.ops[q].pc, t).Some? {
      assert ThreadInv(ViewOf(s, t), PinGoal(s.ops[q].pc, t));
      ReaderSeesNoDeletion(s, p, q, t);
      hide LockInv;
    } else {
      assert ThreadInv(ViewOf(s, t), None);
      hide LockInv;
    }
  }

  /** No deletion is under way next to a reader. */
  lemma ReaderSeesNoDeletion(s: State, p: Pid, q: Pid, t: ThreadId)
    requires LockInv(s) && p in s.ops && q in s.ops && HeldBy(s.ops[p].pc).read
    requires PinGoal(s.ops[q].pc, t).Some?
    ensures !PinsWrite(PinGoal(s.ops[q].pc, t).value)
  {
    assert OpLocks(s, p) && OpLocks(s, q);
  }

  lemma SnapshotSound(s: State, p: Pid, order: seq<ThreadId>)
    requires Safe(s) && !Wiping(s) && p in s.ops && s.ops[p].pc == Act(SnapshotThreads)
    requires Enumerates(order, TableOf(s).Keys)
    ensures ScanSound(s, order, map[])
  {
    assert s.journal.Some? && s.cache.None? && JournalRecorded(s) by {
      assert BuildInv(s, SnapshotThreads);
    }
    forall t, id | t !in order
      ensures OrElse(IndexGet(map[], t, id), JournalDoc(s.journal.value, t, id)) == LookupDoc(Rows(s.history.recorded, t), id)
    {
      DeadThreadEmpty(s, p, t);
    }
  }

  lemma SameScan(s: State, s': State, todo: seq<ThreadId>, idx: Index)
    requires s'.cache == s.cache && s'.journal == s.journal && s'.history == s.history
    ensures ScanSound(s, todo, idx) <==> ScanSound(s', todo, idx)
  {
  }

  lemma SnapshotContinues(s: State, c: Choice)
    ensures var o := DoSnapshotThreads(s, c);
            && Continues(SnapshotThreads, o.pc) && !o.pc.Act?
            && Goal(o.pc) == if !c.ok then None
                             else Some(if c.order == [] then DrainJournal(map[]) else ScanThread(c.order[0], c.order[1..], map[]))
  {
    if c.ok {
      BuildLoopOk(c.order, map[]);
      hide BuildLoop;
    } else {
      EndReadOk(IoError);
      assert Disciplined(FreeBuild(EndRead(IoError))) && Goal(FreeBuild(EndRead(IoError))).None?;
    }
  }

  lemma SnapshotThreadsSafe(s: State, p: Pid, c: Choice, s': State)
    requires Performs(s, p, SnapshotThreads, DoSnapshotThreads(s, c), s')
    requires Enumerates(c.order, TableOf(s).Keys)
    ensures Safe(s')
  {
    hide Safe, LockInv, ScanSound, Enumerates;
    var o := DoSnapshotThreads(s, c);
    SafeParts(s);
    HolderNotWiping(s, p);
    SnapshotSound(s, p, c.order);
    SnapshotContinues(s, c);
    if c.ok {
      SameScan(s, s', c.order, map[]);
    }
    assert c.order != [] ==> [c.order[0]] + c.order[1..] == c.order;
    assert BuildInv(s, SnapshotThreads);
    hide IndexInv, Disciplined, HeldBy;
    BuildAction(s, p, SnapshotThreads, o, s');
  }

  /** Reading one transcript under its lock extends the sound part of the scan. */
  lemma ScanOne(s: State, t: ThreadId, rest: seq<ThreadId>, idx: Index)
    requires ScanSound(s, [t] + rest, idx) && JournalRecorded(s)
    requires FilesOf(s, t) == Rows(s.history.recorded, t)
    ensures ScanSound(s, rest, IndexInsertAll(idx, t, FilesOf(s, t)))
  {
    var todo := [t] + rest;
    var idx' := IndexInsertAll(idx, t, FilesOf(s, t));
    assert forall i :: 0 <= i < |rest| ==> todo[i + 1] == rest[i];
    assert todo[0] == t;
    forall u, id | u in rest ensures IndexGet(idx', u, id).None? {
      InsertAllGet(idx, t, FilesOf(s, t), u, id);
      assert u in todo;
      assert u != t;
    }
    forall u, id | u !in rest
      ensures OrElse(IndexGet(idx', u, id), JournalDoc(s.journal.value, u, id)) == LookupDoc(Rows(s.history.recorded, u), id)
    {
      InsertAllGet(idx, t, FilesOf(s, t), u, id);
      if u == t {
        assert u in todo;
        assert IndexGet(idx, t, id).None?;
      } else {
        assert u !in todo;
      }
    }
  }

  lemma ScanThreadSafe(s: State, p: Pid, t: ThreadId, rest: seq<ThreadId>, idx: Index, s': State)
    requires Performs(s, p, ScanThread(t, rest, idx), DoScanThread(s, t, rest, idx), s')
    ensures Safe(s')
  {
    hide Safe, LockInv, ScanSound, JournalRecorded, Disciplined, HeldBy, Goal;
    var a, o := ScanThread(t, rest, idx), DoScanThread(s, t, rest, idx);
    var idx' := IndexInsertAll(idx, t, FilesOf(s, t));
    ActOk(a);
    HolderView(s, p, t);
    SafeParts(s);
    assert BuildInv(s, a) && PinGoal(Act(a), t).None? && JournalRecorded(s);
    ScanCold(s, [t] + rest, idx);
    assert FilesOf(s, t) == Rows(s.history.recorded, t);
    hide IndexInv, ViewOf, ThreadInv, IndexInsertAll;
    ScanOne(s, t, rest, idx);
    SameScan(s, s', rest, idx');
    JournalSame(s, s');
    ScanContinues(s, t, rest, idx);
    assert rest != [] ==> [rest[0]] + rest[1..] == rest;
    hide BuildLoop;
    BuildAction(s, p, a, o, s');
  }

  lemma ScanContinues(s: State, t: ThreadId, rest: seq<ThreadId>, idx: Index)
    ensures var o := DoScanThread(s, t, rest, idx);
            && Continues(ScanThread(t, rest, idx), o.pc)
            && Goal(o.pc) == Goal(BuildLoop(rest, IndexInsertAll(idx, t, FilesOf(s, t))))
            && Goal(o.pc) == Some(if rest == [] then DrainJournal(IndexInsertAll(idx, t, FilesOf(s, t)))
                                  else ScanThread(rest[0], rest[1..], IndexInsertAll(idx, t, FilesOf(s, t))))
  {
    var more := BuildLoop(rest, IndexInsertAll(idx, t, FilesOf(s, t)));
    BuildLoopOk(rest, IndexInsertAll(idx, t, FilesOf(s, t)));
    hide BuildLoop;
    assert Goal(DropArc(t, more)) == Goal(more);
    assert Disciplined(DropArc(t, more));
  }

  lemma JournalSame(s: State, s': State)
    requires s'.journal == s.journal && s'.history == s.history && JournalRecorded(s)
    ensures JournalRecorded(s')
  {
  }

  lemma SettledUnlessIndexing(v: View, g: Action)
    requires ThreadInv(v, Some(g)) && PinnedThread(g).Some? && !PinsMeta(g)
    ensures v.recorded == v.settled
  {
  }

  /** With the metadata lock held, every recorded row is settled. */
  lemma RecordedIsSettled(s: State, p: Pid, t: ThreadId)
    requires Safe(s) && !Wiping(s) && p in s.ops && HeldBy(s.ops[p].pc).metadata && s.ops[p].pc.Act?
    requires PinnedThread(s.ops[p].pc.action).None?
    ensures Rows(s.history.recorded, t) == Rows(s.history.settled, t)
  {
    if q :| q in s.ops && PinGoal(s.ops[q].pc, t).Some? {
      assert q != p;
      MetadataAlone(s, p, q);
      SettledUnlessIndexing(ViewOf(s, t), Goal(s.ops[q].pc).value);
    } else {
      assert ThreadInv(ViewOf(s, t), None);
    }
  }

  /** Draining the journal completes the index: nothing that is settled is missing, nothing else is there. */
  lemma DrainCompletes(s: State, p: Pid, idx: Index)
    requires Safe(s) && !Wiping(s) && p in s.ops && s.ops[p].pc == Act(DrainJournal(idx))
    ensures s.journal.Some? && IndexSettled(s, IndexReplay(idx, s.journal.value))
  {
    assert BuildInv(s, DrainJournal(idx));
    forall t, id
      ensures IndexGet(IndexReplay(idx, s.journal.value), t, id) == LookupDoc(Rows(s.history.settled, t), id)
    {
      RecordedIsSettled(s, p, t);
      ReplayGet(idx, s.journal.value, t, id);
    }
  }

  lemma DrainJournalSafe(s: State, p: Pid, idx: Index, s': State)
    requires Performs(s, p, DrainJournal(idx), DoDrainJournal(s, idx), s')
    ensures Safe(s')
  {
    hide Safe, LockInv, ScanSound;
    var a, o := DrainJournal(idx), DoDrainJournal(s, idx);
    SafeParts(s);
    HolderNotWiping(s, p);
    DrainCompletes(s, p, idx);
    assert s.cache.None? by {
      assert BuildInv(s, a);
      ScanCold(s, [], idx);
    }
    SameSettled(s, s', IndexReplay(idx, s.journal.value));
    BuildAction(s, p, a, o, s');
  }

  lemma ScanCold(s: State, todo: seq<ThreadId>, idx: Index)
    requires ScanSound(s, todo, idx)
    ensures s.journal.Some? && s.cache.None?
  {
  }

  lemma PublishIndexSafe(s: State, p: Pid, idx: Index, s': State)
    requires Performs(s, p, PublishIndex(idx), DoPublishIndex(s, idx), s')
    ensures Safe(s')
  {
    hide Safe, LockInv, IndexSettled, Disciplined, HeldBy, Goal;
    var a, o := PublishIndex(idx), DoPublishIndex(s, idx);
    ActOk(a);
    SafeParts(s);
    NoJournal(s, p);
    assert BuildInv(s, a);
    ActOk(QueryIndex);
    Prepend(FreeBuild(Act(QueryIndex)));
    Prepend(FreeMeta(FreeBuild(Act(QueryIndex))));
    assert JournalRecorded(s') && BuildInv(s', QueryIndex);
    hide IndexInv, BuildInv;
    BuildAction(s, p, a, o, s');
  }

  // ---------- lock steps, new calls, and every step ----------

  /** A lock step changes only lock tables and the program counter; the pending action stays. */
  lemma LockStepShape(s: State, p: Pid, c: Choice, s': State)
    requires Step(s, p, c, s') && !s.ops[p].pc.Act?
    ensures s'.disk == s.disk && s'.cache == s.cache && s'.journal == s.journal && s'.history == s.history
    ensures p in s'.ops && s'.ops == s.ops[p := s'.ops[p]]
    ensures Goal(s'.ops[p].pc) == Goal(s.ops[p].pc)
    ensures s.ops[p].pc == TakeBuild(s'.ops[p].pc) || s.ops[p].pc == FreeBuild(s'.ops[p].pc) || s'.locks.build == s.locks.build
    ensures s.ops[p].pc == TakeBuild(s'.ops[p].pc) ==> s.locks.build.None? && s'.locks.build == Some(p)
  {
    hide Perform;
  }

  lemma NoStepBeforeDropIndex(pc: Pc)
    requires Disciplined(pc) && !pc.Act? && !pc.Done?
    ensures !(pc.next.Act? && pc.next.action.DropIndex?)
  {
  }

  lemma WriterIs(s: State, p: Pid)
    requires LockInv(s) && p in s.ops
    ensures s.ops[p].pc.Act? && s.ops[p].pc.action.DropIndex? ==> s.locks.writer == Some(p)
    ensures s.locks.writer == Some(p) ==> HeldBy(s.ops[p].pc) != NOTHING
  {
    assert OpLocks(s, p);
  }

  /** No lock step happens next to a wipe, and none leads straight to the index removal of a purge. */
  lemma LockStepNotWiping(s: State, p: Pid, c: Choice, s': State)
    requires LockInv(s) && LockInv(s') && Step(s, p, c, s') && !s.ops[p].pc.Act?
    ensures !Wiping(s) && !Wiping(s')
  {
    var next := s.ops[p].pc.next;
    assert s'.ops[p].pc == next by {
      hide Stepped, CanStep;
    }
    LockStepShape(s, p, c, s');
    hide Step, Disciplined, HeldBy;
    assert OpLocks(s, p);
    if HeldBy(s.ops[p].pc) != NOTHING {
      HolderNotWiping(s, p);
    } else {
      WriterIs(s, p);
    }
    NoStepBeforeDropIndex(s.ops[p].pc);
    if s'.locks.writer.Some? && s'.locks.writer.value in s.ops {
      WriterIs(s, s'.locks.writer.value);
    }
  }

  lemma LockStepLocks(s: State, p: Pid, c: Choice, s': State)
    requires LockInv(s) && Step(s, p, c, s') && !s.ops[p].pc.Act?
    ensures LockInv(s')
  {
    hide LockInv, CanStep, LockStepped, Fetched;
    var pc := s.ops[p].pc;
    if pc.FetchArc? {
      FetchArcStep(s, p, pc.t, pc.next);
    } else {
      LockSteps(s, p);
    }
  }

  lemma FreeBuildNoJournal(s: State, p: Pid)
    requires Safe(s) && p in s.ops && s.ops[p].pc.FreeBuild?
    ensures s.journal.None?
  {
    assert OpLocks(s, p);
    assert Disciplined(s.ops[p].pc.next);
    NoJournal(s, p);
  }

  lemma LockStepSafe(s: State, p: Pid, c: Choice, s': State)
    requires Safe(s) && Step(s, p, c, s') && !s.ops[p].pc.Act?
    ensures Safe(s')
  {
    hide Safe, LockInv, ThreadsInv, ViewOf, Wiping;
    SafeParts(s);
    LockStepLocks(s, p, c, s');
    LockStepNotWiping(s, p, c, s');
    LockStepShape(s, p, c, s');
    if s.ops[p].pc.FreeBuild? {
      FreeBuildNoJournal(s, p);
    }
    hide Step;
    SameViews(s, s');
    assert ThreadsInv(s') by {
      SafeThreads(s);
      SameGoals(s, p, s');
    }
    assert IndexInv(s') by {
      if s'.cache.Some? {
        CacheSettled(s);
        SameSettled(s, s', s'.cache.value);
      }
      JournalSame'(s, s');
      hide IndexSettled, JournalRecorded, Goal;
      forall q | q in s'.ops && Goal(s'.ops[q].pc).Some?
        ensures BuildInv(s', Goal(s'.ops[q].pc).value)
      {
        assert Goal(s'.ops[q].pc) == Goal(s.ops[q].pc);
        SameBuild(s, s', Goal(s.ops[q].pc).value);
      }
    }
    PartsSafe(s');
  }

  lemma JournalSame'(s: State, s': State)
    requires s'.journal == s.journal && s'.history == s.history && IndexInv(s)
    ensures JournalRecorded(s')
  {
  }

  lemma SafeThreads(s: State)
    requires Safe(s) && !Wiping(s)
    ensures ThreadsInv(s)
  {
  }

  /** Thread conditions depend on the pending actions, not on lock steps. */
  lemma SameGoals(s: State, p: Pid, s': State)
    requires ThreadsInv(s)
    requires p in s.ops && p in s'.ops && s'.ops == s.ops[p := s'.ops[p]]
    requires Goal(s'.ops[p].pc) == Goal(s.ops[p].pc)
    requires forall u :: ViewOf(s', u) == ViewOf(s, u)
    ensures ThreadsInv(s')
  {
    hide Goal, ThreadInv, ViewOf, PinnedThread;
    forall q, u | q in s'.ops ensures PinGoal(s'.ops[q].pc, u) == PinGoal(s.ops[q].pc, u) {
    }
    forall u | forall q :: q in s'.ops ==> PinGoal(s'.ops[q].pc, u).None?
      ensures ThreadInv(ViewOf(s', u), None)
    {
      forall q | q in s.ops ensures PinGoal(s.ops[q].pc, u).None? {
        assert PinGoal(s'.ops[q].pc, u).None?;
      }
    }
  }

  lemma SpawnIndexInv(s: State, p: Pid, request: Request, s': State)
    requires IndexInv(s) && Spawn(s, p, request, s')
    ensures IndexInv(s')
  {
    StartDisciplined(request);
    assert BuildInv(s', FirstAction(request));
    hide Start, FirstAction, JournalRecorded, IndexSettled;
    JournalSame'(s, s');
    if s'.cache.Some? {
      SameSettled(s, s', s'.cache.value);
    }
    forall q | q in s'.ops && Goal(s'.ops[q].pc).Some?
      ensures BuildInv(s', Goal(s'.ops[q].pc).value)
    {
      if q != p {
        SameBuild(s, s', Goal(s.ops[q].pc).value);
      }
    }
  }

  lemma SpawnThreadsInv(s: State, p: Pid, request: Request, s': State)
    requires ThreadsInv(s) && Spawn(s, p, request, s')
    ensures ThreadsInv(s')
  {
    StartDisciplined(request);
    assert forall u :: PinGoal(s'.ops[p].pc, u).None?;
    SameViews(s, s');
    hide Start, FirstAction, Goal, ThreadInv, ViewOf;
    forall u | forall q :: q in s'.ops ==> PinGoal(s'.ops[q].pc, u).None?
      ensures ThreadInv(ViewOf(s', u), None)
    {
      forall q | q in s.ops ensures PinGoal(s.ops[q].pc, u).None? {
        assert PinGoal(s'.ops[q].pc, u).None?;
      }
    }
  }

  lemma SpawnSafe(s: State, p: Pid, request: Request, s': State)
    requires Safe(s) && Spawn(s, p, request, s')
    ensures Safe(s')
  {
    hide LockInv, IndexInv, ThreadsInv;
    SpawnStep(s, p, request, s');
    SpawnIndexInv(s, p, request, s');
    assert s.locks.writer.Some? ==> s.locks.writer.value in s.ops by {
      WriterExists(s);
    }
    assert !s'.ops[p].pc.Act?;
    if !Wiping(s) {
      SpawnThreadsInv(s, p, request, s');
    }
  }

  lemma WriterExists(s: State)
    requires LockInv(s)
    ensures s.locks.writer.Some? ==> s.locks.writer.value in s.ops
  {
  }

  // ---------- the invariant is inductive ----------

  lemma ActionSafe(s: State, p: Pid, c: Choice, s': State)
    requires Safe(s) && Step(s, p, c, s') && s.ops[p].pc.Act?
    ensures Safe(s')
  {
    hide Safe, ActionStep, Fetched, TableOf, FilesOf, Unmeasured, UpsertLine, Logged, Regained, Losing, Settled, WithRows, Without;
    hide EndRead, EndThread, EndThreadMeta, EndBuildThread, EndWriteThread, RepairLoop, BuildLoop, Rows, Patched, CutPoint, Lookup;
    match s.ops[p].pc.action
    case AppendUpsert(t, request) => AppendUpsertSafe(s, p, c, t, request, s');
    case FoldLog => FoldLogSafe(s, p, c, s');
    case RepairStats(t, rest) => RepairStatsSafe(s, p, c, t, rest, s');
    case CheckLiveForRead(t) => CheckLiveForReadSafe(s, p, t, s');
    case ReadTranscript(t) => ReadTranscriptSafe(s, p, t, s');
    case PeekCache => PeekCacheSafe(s, p, s');
    case PeekCacheLocked => PeekCacheLockedSafe(s, p, s');
    case BeginJournal => BeginJournalSafe(s, p, s');
    case SnapshotThreads => SnapshotThreadsSafe(s, p, c, s');
    case ScanThread(t, rest, idx) => ScanThreadSafe(s, p, t, rest, idx, s');
    case DrainJournal(idx) => DrainJournalSafe(s, p, idx, s');
    case PublishIndex(idx) => PublishIndexSafe(s, p, idx, s');
    case QueryIndex => QueryIndexSafe(s, p, s');
    case CheckLiveForAppend(t, m) => CheckLiveForAppendSafe(s, p, t, m, s');
    case FindDuplicate(t, m) => FindDuplicateSafe(s, p, t, m, s');
    case WriteRow(t, m) => WriteRowSafe(s, p, c, t, m, s');
    case RecordAppend(t, m) => RecordAppendSafe(s, p, t, m, s');
    case IndexAppend(t, m) => IndexAppendSafe(s, p, t, m, s');
    case LogAppend(t, m) => LogAppendSafe(s, p, c, t, m, s');
    case PatchRow(t, id, metadata) => PatchRowSafe(s, p, c, t, id, metadata, s');
    case CutTranscript(t, id) => CutTranscriptSafe(s, p, c, t, id, s');
    case RebuildIndex(t, kept, removed) => RebuildIndexSafe(s, p, t, kept, removed, s');
    case LogStats(t, kept, removed) => LogStatsSafe(s, p, c, t, kept, removed, s');
    case Tombstone(t, deletedAt) => TombstoneSafe(s, p, c, t, deletedAt, s');
    case RemoveFile(t) => RemoveFileSafe(s, p, t, s');
    case EvictLock(t, existed) => EvictLockSafe(s, p, t, existed, s');
    case DropThreadDocs(t) => DropThreadDocsSafe(s, p, t, s');
    case WipeFiles => WipeFilesSafe(s, p, s');
    case DropIndex(counts) => DropIndexSafe(s, p, counts, s');
    case ClearLocks(counts) => ClearLocksSafe(s, p, counts, s');
  }

  lemma StepSafe(s: State, p: Pid, c: Choice, s': State)
    requires Safe(s) && Step(s, p, c, s')
    ensures Safe(s')
  {
    hide Safe, Perform, Fetched;
    if s.ops[p].pc.Act? {
      ActionSafe(s, p, c, s');
    } else {
      LockStepSafe(s, p, c, s');
    }
  }

  lemma InitialSafe()
    ensures Safe(INITIAL)
  {
    assert forall t :: ViewOf(INITIAL, t) == View([], [], [], None, false);
  }

  /** Every step of any operation, and every new call, keeps the store safe. */
  lemma NextSafe(s: State, s': State)
    requires Safe(s) && Next(s, s')
    ensures Safe(s')
  {
    hide Safe, Step, Spawn;
    if p, request :| Spawn(s, p, request, s') {
      SpawnSafe(s, p, request, s');
    } else {
      var p, c :| Step(s, p, c, s');
      StepSafe(s, p, c, s');
    }
  }
}
