/**
 * What searches see over whole runs: appended messages from the moment the append returned,
 * removed messages no more once the removal returned.
 */
module StoreHistory {
  import opened Options
  import opened ConversationTypes
  import opened ThreadLog
  import opened StoreProtocol
  import opened StoreLockOrder
  import opened StoreSafety
  import opened StoreRuns

  // ---------- where an operation is heading ----------

  /** The action or reply an operation reaches next, past any lock steps. */
  function Destination(pc: Pc): Pc {
    if pc.Act? || pc.Done? then pc else Destination(pc.next)
  }

  lemma {:induction false} DestinationGoal(pc: Pc)
    ensures Destination(pc).Act? || Destination(pc).Done?
    ensures Goal(pc) == if Destination(pc).Act? then Some(Destination(pc).action) else None
  {
    if !pc.Act? && !pc.Done? {
      DestinationGoal(pc.next);
    }
  }

  lemma TailDestinations()
    ensures forall r :: Destination(EndRead(r)) == Done(r)
    ensures forall t, r :: Destination(EndThread(t, r)) == Done(r)
    ensures forall t, r :: Destination(EndThreadMeta(t, r)) == Done(r)
    ensures forall t, r :: Destination(EndBuildThread(t, r)) == Done(r)
    ensures forall t, r :: Destination(EndWriteThread(t, r)) == Done(r)
  {
    forall r ensures Destination(EndRead(r)) == Done(r) {
      assert Destination(Done(r)) == Done(r);
    }
    forall t, r ensures Destination(EndThread(t, r)) == Done(r) {
      assert Destination(DropArc(t, EndRead(r))) == Destination(EndRead(r));
    }
    forall t, r ensures Destination(EndBuildThread(t, r)) == Done(r) {
      assert Destination(FreeBuild(EndRead(r))) == Destination(EndRead(r));
      assert Destination(DropArc(t, FreeBuild(EndRead(r)))) == Destination(FreeBuild(EndRead(r)));
    }
    forall t, r ensures Destination(EndWriteThread(t, r)) == Done(r) {
      assert Destination(FreeWrite(Done(r))) == Done(r);
      assert Destination(DropArc(t, FreeWrite(Done(r)))) == Destination(FreeWrite(Done(r)));
    }
  }

  lemma LoopDestinations(todo: seq<ThreadId>, idx: Index)
    ensures Destination(RepairLoop(todo)) == Act(if todo == [] then FoldLog else RepairStats(todo[0], todo[1..]))
    ensures Destination(BuildLoop(todo, idx)) == Act(if todo == [] then DrainJournal(idx) else ScanThread(todo[0], todo[1..], idx))
  {
    if todo != [] {
      var step := Act(RepairStats(todo[0], todo[1..]));
      assert Destination(TakeMeta(step)) == step;
      assert Destination(TakeThread(TakeMeta(step))) == step;
      var scan := Act(ScanThread(todo[0], todo[1..], idx));
      assert Destination(TakeThread(scan)) == scan;
    }
  }

  /** The action belongs to the program of the request. */
  predicate ServesAction(request: Request, a: Action) {
    match a
    case AppendUpsert(t, r) => r == request && (r.EnsureThread? || r.UpdateThreadTitle? || r.UpdateThreadLabels?) && r.threadId == t
    case FoldLog => request.ListThreads?
    case RepairStats(_, _) => request.ListThreads?
    case CheckLiveForRead(t) => request == GetMessages(t)
    case ReadTranscript(t) => request == GetMessages(t)
    case PeekCache => request.SearchMessages?
    case PeekCacheLocked => request.SearchMessages?
    case BeginJournal => request.SearchMessages?
    case SnapshotThreads => request.SearchMessages?
    case ScanThread(_, _, _) => request.SearchMessages?
    case DrainJournal(_) => request.SearchMessages?
    case PublishIndex(_) => request.SearchMessages?
    case QueryIndex => request.SearchMessages?
    case CheckLiveForAppend(t, m) => request == AppendMessage(t, m)
    case FindDuplicate(t, m) => request == AppendMessage(t, m)
    case WriteRow(t, m) => request == AppendMessage(t, m)
    case RecordAppend(t, m) => request == AppendMessage(t, m)
    case IndexAppend(t, m) => request == AppendMessage(t, m)
    case LogAppend(t, m) => request == AppendMessage(t, m)
    case PatchRow(t, id, metadata) => request == UpdateMessage(t, id, metadata)
    case CutTranscript(t, id) => request == DeleteMessagesFrom(t, id)
    case RebuildIndex(t, _, _) => request.DeleteMessagesFrom? && request.threadId == t
    case LogStats(t, _, _) => request.DeleteMessagesFrom? && request.threadId == t
    case Tombstone(t, at) => request == DeleteThread(t, at)
    case RemoveFile(t) => request.DeleteThread? && request.threadId == t
    case EvictLock(t, _) => request.DeleteThread? && request.threadId == t
    case DropThreadDocs(t) => request.DeleteThread? && request.threadId == t
    case WipeFiles => request.PurgeThreads?
    case DropIndex(_) => request.PurgeThreads?
    case ClearLocks(_) => request.PurgeThreads?
  }

  predicate Serves(request: Request, d: Pc) {
    d.Act? ==> ServesAction(request, d.action)
  }

  /** What an action leads to: the reply it decides, or the next action, which may need its results. */
  ghost predicate LeadsTo(s: State, a: Action, d: Pc) {
    && (d.Act? || d.Done?)
    && (forall request {:trigger Serves(request, d)} {:trigger ServesAction(request, a)} ::
          ServesAction(request, a) ==> Serves(request, d))
    && (d.Done? ==>
          match d.response
          case Searched(ix) => a == QueryIndex && s.cache == Some(ix)
          case Appended(stored) =>
            || (a.FindDuplicate? && Lookup(FilesOf(s, a.t), a.m.id) == Some(stored) && IsDeterministicMessageId(a.m.id))
            || (a.LogAppend? && a.m == stored)
          case Deleted(existed) => if existed then a.DropThreadDocs? else a.EvictLock? && !a.existed
          case Purged(counts) => a == ClearLocks(counts)
          case Truncated(removed) => removed.Some? ==> a.LogStats? && a.removed == removed.value
          case Transcript(ms) =>
            (a.CheckLiveForRead? && a.t !in TableOf(s) && ms == []) || (a.ReadTranscript? && ms == FilesOf(s, a.t))
          case Listed(table) => a == FoldLog && table == TableOf(s) && Unmeasured(table) == {}
          case Summary(count, last) =>
            a.AppendUpsert? && UpsertLine(a.t, a.request, TableOf(s)).Some?
            && (var after := TableOf(Logged(s, UpsertLine(a.t, a.request, TableOf(s)).value));
                a.t in after && d.response == SummaryOf(after[a.t], FilesOf(s, a.t)))
          case _ => true)
    && (d.Act? ==>
          match d.action
          case ClearLocks(counts) => a == DropIndex(counts)
          case DropIndex(counts) => a == WipeFiles && counts == WipedCounts(s)
          case LogStats(t, kept, removed) => a == RebuildIndex(t, kept, removed)
          case LogAppend(t, m) => a == IndexAppend(t, m)
          case IndexAppend(t, m) => a == RecordAppend(t, m)
          case RecordAppend(t, m) => a == WriteRow(t, m)
          case RebuildIndex(t, kept, removed) =>
            a.CutTranscript? && a.t == t && CutPoint(FilesOf(s, t), a.id) < |FilesOf(s, t)|
            && kept == FilesOf(s, t)[..CutPoint(FilesOf(s, t), a.id)] && removed == |FilesOf(s, t)| - |kept|
          case _ => true)
  }

  /** Lock steps do not change where an operation is heading. */
  lemma StepDestinations()
    ensures forall n {:trigger TakeMeta(n)} :: Destination(TakeMeta(n)) == Destination(n)
    ensures forall n {:trigger TakeBuild(n)} :: Destination(TakeBuild(n)) == Destination(n)
    ensures forall n {:trigger FreeMeta(n)} :: Destination(FreeMeta(n)) == Destination(n)
    ensures forall n {:trigger FreeThread(n)} :: Destination(FreeThread(n)) == Destination(n)
    ensures forall n {:trigger FreeBuild(n)} :: Destination(FreeBuild(n)) == Destination(n)
    ensures forall n {:trigger FreeWrite(n)} :: Destination(FreeWrite(n)) == Destination(n)
    ensures forall t, n {:trigger DropArc(t, n)} :: Destination(DropArc(t, n)) == Destination(n)
    ensures forall a {:trigger Act(a)} :: Destination(Act(a)) == Act(a)
    ensures forall r {:trigger Done(r)} :: Destination(Done(r)) == Done(r)
  {
  }

  lemma ReadLeads(s: State, a: Action, c: Choice)
    requires a.AppendUpsert? || a.CheckLiveForRead? || a.ReadTranscript?
    ensures LeadsTo(s, a, Destination(Perform(s, a, c).pc))
  {
    hide Destination, Fold, EndRead, EndThread, EndThreadMeta, EndBuildThread, EndWriteThread, RepairLoop, BuildLoop;
    TailDestinations();
    StepDestinations();
  }

  lemma ListLeads(s: State, a: Action, c: Choice)
    requires a.FoldLog? || a.RepairStats?
    ensures LeadsTo(s, a, Destination(Perform(s, a, c).pc))
  {
    hide Destination, Fold, EndRead, EndThread, EndThreadMeta, EndBuildThread, EndWriteThread, RepairLoop, BuildLoop;
    TailDestinations();
    StepDestinations();
    LoopDestinations(if a.FoldLog? then c.order else a.rest, map[]);
  }

  lemma SearchLeads(s: State, a: Action, c: Choice)
    requires a.PeekCache? || a.PeekCacheLocked? || a.BeginJournal? || a.QueryIndex?
    ensures LeadsTo(s, a, Destination(Perform(s, a, c).pc))
  {
    hide Destination, Fold, EndRead, EndThread, EndThreadMeta, EndBuildThread, EndWriteThread, RepairLoop, BuildLoop;
    TailDestinations();
    StepDestinations();
  }

  lemma ScanLeads(s: State, a: Action, c: Choice)
    requires a.SnapshotThreads? || a.ScanThread?
    ensures LeadsTo(s, a, Destination(Perform(s, a, c).pc))
  {
    hide Destination, Fold, EndRead, EndThread, EndThreadMeta, EndBuildThread, EndWriteThread, RepairLoop, BuildLoop;
    TailDestinations();
    StepDestinations();
    LoopDestinations(if a.ScanThread? then a.rest else c.order,
                     if a.ScanThread? then IndexInsertAll(a.idx, a.t, FilesOf(s, a.t)) else map[]);
  }

  lemma PublishLeads(s: State, a: Action, c: Choice)
    requires a.DrainJournal? || a.PublishIndex?
    ensures LeadsTo(s, a, Destination(Perform(s, a, c).pc))
  {
    hide Destination, Fold, EndRead, EndThread, EndThreadMeta, EndBuildThread, EndWriteThread, RepairLoop, BuildLoop;
    TailDestinations();
    StepDestinations();
  }

  lemma AppendLeads(s: State, a: Action, c: Choice)
    requires a.CheckLiveForAppend? || a.FindDuplicate? || a.WriteRow?
    ensures LeadsTo(s, a, Destination(Perform(s, a, c).pc))
  {
    hide Destination, Fold, EndRead, EndThread, EndThreadMeta, EndBuildThread, EndWriteThread, RepairLoop, BuildLoop;
    TailDestinations();
    StepDestinations();
  }

  lemma AppendedLeads(s: State, a: Action, c: Choice)
    requires a.RecordAppend? || a.IndexAppend? || a.LogAppend? || a.PatchRow?
    ensures LeadsTo(s, a, Destination(Perform(s, a, c).pc))
  {
    hide Destination, Fold, EndRead, EndThread, EndThreadMeta, EndBuildThread, EndWriteThread, RepairLoop, BuildLoop;
    TailDestinations();
    StepDestinations();
  }

  lemma TruncateLeads(s: State, a: Action, c: Choice)
    requires a.CutTranscript? || a.RebuildIndex? || a.LogStats?
    ensures LeadsTo(s, a, Destination(Perform(s, a, c).pc))
  {
    hide Destination, Fold, EndRead, EndThread, EndThreadMeta, EndBuildThread, EndWriteThread, RepairLoop, BuildLoop;
    TailDestinations();
    StepDestinations();
  }

  lemma DeleteLeads(s: State, a: Action, c: Choice)
    requires a.Tombstone? || a.RemoveFile? || a.EvictLock? || a.DropThreadDocs?
    ensures LeadsTo(s, a, Destination(Perform(s, a, c).pc))
  {
    hide Destination, Fold, EndRead, EndThread, EndThreadMeta, EndBuildThread, EndWriteThread, RepairLoop, BuildLoop;
    TailDestinations();
    StepDestinations();
  }

  lemma PurgeLeads(s: State, a: Action, c: Choice)
    requires a.WipeFiles? || a.DropIndex? || a.ClearLocks?
    ensures LeadsTo(s, a, Destination(Perform(s, a, c).pc))
  {
    hide Destination, Fold, EndRead, EndThread, EndThreadMeta, EndBuildThread, EndWriteThread, RepairLoop, BuildLoop;
    TailDestinations();
    StepDestinations();
  }

  lemma ActionLeads(s: State, a: Action, c: Choice)
    ensures LeadsTo(s, a, Destination(Perform(s, a, c).pc))
  {
    hide LeadsTo, Destination, Perform;
    if a.AppendUpsert? || a.CheckLiveForRead? || a.ReadTranscript? {
      ReadLeads(s, a, c);
    } else if a.FoldLog? || a.RepairStats? {
      ListLeads(s, a, c);
    } else if a.PeekCache? || a.PeekCacheLocked? || a.BeginJournal? || a.QueryIndex? {
      SearchLeads(s, a, c);
    } else if a.SnapshotThreads? || a.ScanThread? {
      ScanLeads(s, a, c);
    } else if a.DrainJournal? || a.PublishIndex? {
      PublishLeads(s, a, c);
    } else if a.CheckLiveForAppend? || a.FindDuplicate? || a.WriteRow? {
      AppendLeads(s, a, c);
    } else if a.RecordAppend? || a.IndexAppend? || a.LogAppend? || a.PatchRow? {
      AppendedLeads(s, a, c);
    } else if a.CutTranscript? || a.RebuildIndex? || a.LogStats? {
      TruncateLeads(s, a, c);
    } else if a.Tombstone? || a.RemoveFile? || a.EvictLock? || a.DropThreadDocs? {
      DeleteLeads(s, a, c);
    } else {
      PurgeLeads(s, a, c);
    }
  }

  // ---------- one operation through a run ----------

  /** A step of one operation leaves the others where they are. */
  lemma StepFrame(s: State, p: Pid, c: Choice, s': State)
    requires Step(s, p, c, s')
    ensures p in s.ops && p in s'.ops && s'.ops == s.ops[p := s'.ops[p]] && s'.ops[p].request == s.ops[p].request
    ensures if s.ops[p].pc.Act? then s'.ops[p].pc == Perform(s, s.ops[p].pc.action, c).pc
            else Destination(s'.ops[p].pc) == Destination(s.ops[p].pc)
  {
    hide Perform, CanStep, Stepped;
  }

  /** Operation `p` performs its pending action in step `k` of the run. */
  ghost predicate ActsAt(run: seq<State>, k: int, p: Pid, c: Choice) {
    0 <= k < |run| - 1 && p in run[k].ops && run[k].ops[p].pc.Act? && Step(run[k], p, c, run[k + 1])
  }

  /** The action in step `k` is the last one of `p` before state `j`. */
  ghost predicate BroughtBy(run: seq<State>, k: int, j: nat, p: Pid, c: Choice) {
    && j < |run| && 0 <= k < j && ActsAt(run, k, p, c) && p in run[j].ops
    && run[j].ops[p].request == run[k].ops[p].request
    && Destination(run[j].ops[p].pc) == Destination(Perform(run[k], run[k].ops[p].pc.action, c).pc)
  }

  /** An operation on its way to its first action, or the step that sent it where it is heading. */
  lemma {:induction false} LastAction(run: seq<State>, j: nat, p: Pid) returns (k: int, c: Choice)
    requires Run(run) && j < |run| && p in run[j].ops
    ensures k < 0 ==> Destination(run[j].ops[p].pc) == Act(FirstAction(run[j].ops[p].request))
    ensures 0 <= k ==> BroughtBy(run, k, j, p, c)
  {
    k, c := -1, Choice(true, []);
    hide Step, Perform, Destination, FirstAction;
    if j > 0 {
      var s, s' := run[j - 1], run[j];
      assert Goes(run, j - 1);
      if q, request :| Spawn(s, q, request, s') {
        if q == p {
          StartDestination(request);
        } else {
          k, c := LastAction(run, j - 1, p);
        }
      } else {
        var q, d :| Step(s, q, d, s');
        StepFrame(s, q, d, s');
        if q == p && s.ops[p].pc.Act? {
          k, c := j - 1, d;
        } else {
          k, c := LastAction(run, j - 1, p);
        }
      }
    }
  }

  lemma StartDestination(request: Request)
    ensures Destination(Start(request)) == Act(FirstAction(request))
  {
    StartDisciplined(request);
    DestinationGoal(Start(request));
  }

  /** Calls stay, with their request. */
  lemma {:induction false} CallsStay(run: seq<State>, i: nat, j: nat, p: Pid)
    requires Run(run) && i <= j < |run| && p in run[i].ops
    ensures p in run[j].ops && run[j].ops[p].request == run[i].ops[p].request
  {
    if i < j {
      CallsStay(run, i, j - 1, p);
      var s, s' := run[j - 1], run[j];
      assert Goes(run, j - 1);
      hide Step;
      if q, request :| Spawn(s, q, request, s') {
      } else {
        var q, c :| Step(s, q, c, s');
        StepFrame(s, q, c, s');
      }
    }
  }

  /** Every operation runs the program of its request. */
  lemma {:induction false} RunServes(run: seq<State>, j: nat, p: Pid)
    requires Run(run) && j < |run| && p in run[j].ops
    ensures Serves(run[j].ops[p].request, Destination(run[j].ops[p].pc))
    decreases j
  {
    var k, c := LastAction(run, j, p);
    hide Step, Perform, ServesAction;
    if k < 0 {
      FirstServes(run[j].ops[p].request);
    } else {
      RunServes(run, k, p);
      var a := run[k].ops[p].pc.action;
      ActionLeads(run[k], a, c);
      assert ServesAction(run[k].ops[p].request, a);
    }
  }

  lemma FirstServes(request: Request)
    ensures ServesAction(request, FirstAction(request))
  {
  }

  /** The step in which a finished operation's reply, or a pending action, was decided. */
  lemma Decided(run: seq<State>, j: nat, p: Pid) returns (k: nat, c: Choice)
    requires Run(run) && j < |run| && p in run[j].ops
    requires Destination(run[j].ops[p].pc) != Act(FirstAction(run[j].ops[p].request))
    ensures k < j && ActsAt(run, k, p, c) && run[k].ops[p].request == run[j].ops[p].request
    ensures p in run[k + 1].ops && Destination(run[k + 1].ops[p].pc) == Destination(run[j].ops[p].pc)
    ensures LeadsTo(run[k], run[k].ops[p].pc.action, Destination(run[j].ops[p].pc))
    ensures ServesAction(run[j].ops[p].request, run[k].ops[p].pc.action)
  {
    var k', c' := LastAction(run, j, p);
    k, c := k', c';
    hide Perform, LeadsTo, Step;
    StepFrame(run[k], p, c, run[k + 1]);
    ActionLeads(run[k], run[k].ops[p].pc.action, c);
    RunServes(run, k, p);
  }

  // ---------- how the indexed content changes ----------

  /** The document the index holds for a message, or would hold if it were warm. */
  function IndexedDoc(s: State, t: ThreadId, id: MessageId): Option<Doc> {
    LookupDoc(Rows(s.history.settled, t), id)
  }

  /** The pending action of `p` takes the message out of the index. */
  ghost predicate Removes(s: State, p: Pid, t: ThreadId, id: MessageId) {
    p in s.ops && s.ops[p].pc.Act? &&
    match s.ops[p].pc.action
    case RebuildIndex(u, kept, _) => u == t && LookupDoc(kept, id).None?
    case DropThreadDocs(u) => u == t
    case DropIndex(_) => true
    case _ => false
  }

  /** The pending action of `p` puts the message into the index. */
  ghost predicate Adds(s: State, p: Pid, t: ThreadId, id: MessageId) {
    p in s.ops && s.ops[p].pc.Act? && s.ops[p].pc.action.IndexAppend?
    && s.ops[p].pc.action.t == t && s.ops[p].pc.action.m.id == id
  }

  /** Only these actions change what the index holds. */
  lemma OthersKeepSettled(s: State, a: Action, c: Choice)
    requires !a.IndexAppend? && !a.PatchRow? && !a.RebuildIndex? && !a.DropThreadDocs? && !a.DropIndex?
    ensures Perform(s, a, c).state.history.settled == s.history.settled
  {
    hide Fold, FilesOf;
  }

  lemma SettledStep(s: State, p: Pid, c: Choice, s': State, t: ThreadId, id: MessageId)
    requires Safe(s) && Step(s, p, c, s')
    ensures IndexedDoc(s', t, id) == IndexedDoc(s, t, id)
         || (IndexedDoc(s, t, id).Some? && IndexedDoc(s', t, id).None? && Removes(s, p, t, id))
         || (IndexedDoc(s, t, id).None? && IndexedDoc(s', t, id).Some? && Adds(s, p, t, id))
  {
    hide Safe, LookupDoc, Fold, FilesOf, Rows, CanStep, Stepped;
    var op := s.ops[p];
    if !op.pc.Act? {
      assert s'.history == s.history;
    } else {
      var a := op.pc.action;
      assert s'.history == Perform(s, a, c).state.history;
      if a.IndexAppend? {
        IndexAppendDoc(s, a.t, a.m, t, id);
      } else if a.PatchRow? {
        SafeParts(s);
        assert op.pc == Act(a);
        PatchedDoc(s, p, c, a.t, a.id, a.metadata, t, id);
      } else if a.RebuildIndex? {
        RebuiltDoc(s, p, a.t, a.kept, a.removed, t, id);
      } else if a.DropThreadDocs? {
        DroppedDoc(s, a.t, t, id);
      } else if a.DropIndex? {
        EmptiedDoc(s, a.counts, t, id);
      } else {
        OthersKeepSettled(s, a, c);
      }
    }
  }

  lemma IndexAppendDoc(s: State, u: ThreadId, m: Message, t: ThreadId, id: MessageId)
    ensures var after := DoIndexAppend(s, u, m).state;
            IndexedDoc(after, t, id) == OrElse(IndexedDoc(s, t, id), if u == t && m.id == id then Some(DocOf(m)) else None)
  {
    LookupAppend(Rows(s.history.settled, u), m, id);
    hide Lookup;
  }

  lemma PatchedDoc(s: State, p: Pid, c: Choice, u: ThreadId, i: MessageId, metadata: Option<string>, t: ThreadId, id: MessageId)
    requires Safe(s) && p in s.ops && s.ops[p].pc == Act(PatchRow(u, i, metadata))
    ensures IndexedDoc(DoPatchRow(s, c, u, i, metadata).state, t, id) == IndexedDoc(s, t, id)
  {
    hide Safe, LookupDoc, DoPatchRow, Rows;
    HolderView(s, p, u);
    PatchKeepsDocs(s, c, u, i, metadata);
  }

  lemma RebuiltDoc(s: State, p: Pid, u: ThreadId, kept: seq<Message>, removed: nat, t: ThreadId, id: MessageId)
    requires Safe(s) && p in s.ops && s.ops[p].pc == Act(RebuildIndex(u, kept, removed))
    ensures IndexedDoc(DoRebuildIndex(s, u, kept, removed).state, t, id)
         == if u == t && LookupDoc(kept, id).None? then None else IndexedDoc(s, t, id)
  {
    hide Safe;
    HolderView(s, p, u);
    assert kept <= ViewOf(s, u).settled;
    assert kept == Rows(s.history.settled, u)[..|kept|];
    hide ViewOf, ThreadInv;
    LookupPrefix(Rows(s.history.settled, u), |kept|, id);
    hide Lookup, IndexInsertAll, IndexRemoveThread;
  }

  lemma DroppedDoc(s: State, u: ThreadId, t: ThreadId, id: MessageId)
    ensures IndexedDoc(DoDropThreadDocs(s, u).state, t, id) == if u == t then None else IndexedDoc(s, t, id)
  {
  }

  lemma EmptiedDoc(s: State, counts: map<ThreadId, nat>, t: ThreadId, id: MessageId)
    ensures IndexedDoc(DoDropIndex(s, counts).state, t, id) == None
  {
  }

  lemma NextDoc(run: seq<State>, k: nat, t: ThreadId, id: MessageId) returns (p: Pid)
    requires Run(run) && k < |run| - 1
    ensures IndexedDoc(run[k + 1], t, id) == IndexedDoc(run[k], t, id)
         || (IndexedDoc(run[k + 1], t, id).None? && Removes(run[k], p, t, id))
         || (IndexedDoc(run[k], t, id).None? && Adds(run[k], p, t, id))
  {
    var s, s' := run[k], run[k + 1];
    assert Goes(run, k);
    p := 0;
    RunSafe(run, k);
    hide Safe, Step, Removes, Adds;
    if q, request :| Spawn(s, q, request, s') {
    } else {
      var q, c :| Step(s, q, c, s');
      p := q;
      SettledStep(s, q, c, s', t, id);
    }
  }

  /** What is indexed stays, until an action that removes it. */
  lemma {:induction false} IndexedStays(run: seq<State>, i: nat, j: nat, t: ThreadId, id: MessageId) returns (k: nat, p: Pid)
    requires Run(run) && i <= j < |run| && IndexedDoc(run[i], t, id).Some?
    ensures IndexedDoc(run[j], t, id) == IndexedDoc(run[i], t, id) || (i <= k < j && Removes(run[k], p, t, id))
  {
    hide Run, IndexedDoc, Removes, Adds;
    if i == j {
      k, p := i, 0;
    } else {
      k, p := IndexedStays(run, i, j - 1, t, id);
      var q := NextDoc(run, j - 1, t, id);
      if !(i <= k < j - 1 && Removes(run[k], p, t, id)) {
        k, p := j - 1, q;
      }
    }
  }

  /** What is not indexed stays away, until an append adds it. */
  lemma {:induction false} AbsentStays(run: seq<State>, i: nat, j: nat, t: ThreadId, id: MessageId) returns (k: nat, p: Pid)
    requires Run(run) && i <= j < |run| && IndexedDoc(run[i], t, id).None?
    ensures IndexedDoc(run[j], t, id).None? || (i <= k < j && Adds(run[k], p, t, id))
  {
    hide Run, IndexedDoc, Removes, Adds;
    if i == j {
      k, p := i, 0;
    } else {
      k, p := AbsentStays(run, i, j - 1, t, id);
      var q := NextDoc(run, j - 1, t, id);
      if !(i <= k < j - 1 && Adds(run[k], p, t, id)) {
        k, p := j - 1, q;
      }
    }
  }

  // ---------- searches ----------

  ghost predicate Answered(s: State, p: Pid, request: Request, reply: Response) {
    p in s.ops && s.ops[p].request == request && s.ops[p].pc == Done(reply)
  }

  /** A search that answered ran on a warm index, some time after it was called. */
  lemma SearchRanOn(run: seq<State>, i: nat, j: nat, q: Pid, ix: Index) returns (k: nat)
    requires Run(run) && i <= j < |run|
    requires q !in run[i].ops && Answered(run[j], q, SearchMessages, Searched(ix))
    ensures i < k < j && forall t, id :: IndexGet(ix, t, id) == IndexedDoc(run[k], t, id)
  {
    hide Step, ServesAction;
    var k', c := Decided(run, j, q);
    k := k';
    if k <= i {
      CallsStay(run, k, i, q);
    }
    assert run[k].cache == Some(ix);
    RunSafe(run, k);
    CacheSettled(run[k]);
    hide Safe, LookupDoc;
  }

  /** A truncation or deletion of the thread, or a purge. */
  predicate Covering(request: Request, t: ThreadId) {
    request.PurgeThreads? || ((request.DeleteThread? || request.DeleteMessagesFrom?) && request.threadId == t)
  }

  lemma RemovalCovers(run: seq<State>, k: nat, p: Pid, t: ThreadId, id: MessageId)
    requires Run(run) && k < |run| && Removes(run[k], p, t, id)
    ensures Covering(run[k].ops[p].request, t)
  {
    RunServes(run, k, p);
  }

  lemma AddAppends(run: seq<State>, k: nat, p: Pid, t: ThreadId, id: MessageId)
    requires Run(run) && k < |run| && Adds(run[k], p, t, id)
    ensures var r := run[k].ops[p].request; r.AppendMessage? && r.threadId == t && r.message.id == id
  {
    RunServes(run, k, p);
  }

  /** By the time an append is about to return, its message is indexed. */
  lemma AppendIndexed(run: seq<State>, i: nat, p: Pid, t: ThreadId, m: Message, stored: Message) returns (k: nat)
    requires Run(run) && i < |run| && Answered(run[i], p, AppendMessage(t, m), Appended(stored))
    ensures k < i && p in run[k].ops && stored.id == m.id && k + 1 < |run|
    ensures || run[k].ops[p].pc == Act(LogAppend(t, m))
            || (run[k].ops[p].pc == Act(FindDuplicate(t, m)) && Lookup(FilesOf(run[k], t), m.id).Some?)
    ensures IndexedDoc(run[k], t, m.id).Some?
    ensures IsDeterministicMessageId(m.id) ==> IndexedDoc(run[k], t, m.id) == Some(DocOf(stored))
  {
    hide Step;
    var k', c := Decided(run, i, p);
    k := k';
    var s, a := run[k], run[k].ops[p].pc.action;
    RunSafe(run, k);
    hide Serves, Perform;
    assert a == FindDuplicate(t, m) || a == LogAppend(t, m);
    hide ServesAction, Run;
    HolderView(s, p, t);
    hide Safe, LeadsTo;
    LookupFindsFirst(FilesOf(s, t), m.id);
    AppendViewIndexed(ViewOf(s, t), a, t, m);
    assert ViewOf(s, t).rows == FilesOf(s, t) && ViewOf(s, t).settled == Rows(s.history.settled, t);
  }

  lemma AppendViewIndexed(v: View, a: Action, t: ThreadId, m: Message)
    requires a == FindDuplicate(t, m) || a == LogAppend(t, m)
    requires ThreadInv(v, Some(a))
    ensures v.settled == v.rows
    ensures a.LogAppend? ==> Lookup(v.rows, m.id).Some?
    ensures a.LogAppend? && IsDeterministicMessageId(m.id) ==> Lookup(v.rows, m.id) == Some(m)
  {
    if a.LogAppend? {
      var front := v.rows[..|v.rows| - 1];
      assert v.rows == front + [m];
      LookupAppend(front, m, m.id);
      LookupFindsFirst(front, m.id);
      assert forall i :: 0 <= i < |front| ==> v.rows[i] == front[i];
    }
  }

  /** The step in which an append that is about to return wrote its row, or found the row that is there. */
  lemma AppendWrote(run: seq<State>, i: nat, p: Pid, t: ThreadId, m: Message, stored: Message) returns (w: nat, k: nat)
    requires Run(run) && i < |run| && Answered(run[i], p, AppendMessage(t, m), Appended(stored))
    ensures w <= k < i && p in run[w].ops && p in run[k].ops && stored.id == m.id
    ensures WritesAt(run, w, p, t, m)
    ensures IndexedDoc(run[k], t, m.id).Some?
    ensures IsDeterministicMessageId(m.id) ==> IndexedDoc(run[k], t, m.id) == Some(DocOf(stored))
  {
    hide Step, Safe, IndexedDoc;
    k := AppendIndexed(run, i, p, t, m, stored);
    w := k;
    if run[k].ops[p].pc == Act(LogAppend(t, m)) {
      var k1, c1 := Decided(run, k, p);
      assert run[k1].ops[p].pc == Act(IndexAppend(t, m));
      var k2, c2 := Decided(run, k1, p);
      assert run[k2].ops[p].pc == Act(RecordAppend(t, m));
      var k3, c3 := Decided(run, k2, p);
      assert run[k3].ops[p].pc == Act(WriteRow(t, m));
      w := k3;
      WriteStep(run[w], p, c3, run[w + 1], t, m);
    }
  }

  /** In this step the append writes its row, or finds a row with its id and writes none. */
  ghost predicate WritesAt(run: seq<State>, w: nat, p: Pid, t: ThreadId, m: Message) {
    && w + 1 < |run| && p in run[w].ops
    && (|| (run[w].ops[p].pc == Act(WriteRow(t, m)) && FilesOf(run[w + 1], t) == FilesOf(run[w], t) + [m])
        || (run[w].ops[p].pc == Act(FindDuplicate(t, m)) && Lookup(FilesOf(run[w], t), m.id).Some?))
  }

  lemma WriteStep(s: State, p: Pid, c: Choice, s': State, t: ThreadId, m: Message)
    requires p in s.ops && s.ops[p].pc == Act(WriteRow(t, m)) && Step(s, p, c, s')
    requires Destination(s'.ops[p].pc) == Act(RecordAppend(t, m))
    ensures FilesOf(s', t) == FilesOf(s, t) + [m]
  {
    TailDestinations();
    hide Destination, EndThread;
  }

  /**
   * Read your writes: a search called after an append returned runs on an index that contains
   * the message, unless a truncation or deletion of the thread or a purge was in progress at
   * some time between the step that wrote the row and the answer of the search.
   */
  lemma SearchSeesAppend(run: seq<State>, a0: nat, i: nat, j: nat, p: Pid, q: Pid, t: ThreadId, m: Message, stored: Message, ix: Index)
    returns (w: nat)
    requires Run(run) && a0 <= i <= j < |run|
    requires p !in run[a0].ops && Answered(run[i], p, AppendMessage(t, m), Appended(stored))
    requires q !in run[i].ops && Answered(run[j], q, SearchMessages, Searched(ix))
    ensures a0 < w < i && WritesAt(run, w, p, t, m)
    ensures (forall l, r :: w <= l <= j && r in run[l].ops && Covering(run[l].ops[r].request, t) ==> run[l].ops[r].pc.Done?) ==>
              && IndexGet(ix, t, stored.id).Some?
              && (IsDeterministicMessageId(m.id) ==> IndexGet(ix, t, stored.id) == Some(DocOf(stored)))
  {
    hide Safe, IndexedDoc, LookupDoc, WritesAt;
    var k;
    w, k := AppendWrote(run, i, p, t, m, stored);
    if w <= a0 {
      CallsStay(run, w, a0, p);
    }
    var l := SearchRanOn(run, i, j, q, ix);
    var x, r := IndexedStays(run, k, l, t, m.id);
    if IndexedDoc(run[l], t, m.id) != IndexedDoc(run[k], t, m.id) {
      RemovalCovers(run, x, r, t, m.id);
    }
  }

  /** The message is not in the index after step `k`, a step of the operation's call. */
  ghost predicate RemovedAt(run: seq<State>, k: nat, p: Pid, t: ThreadId, id: MessageId) {
    k < |run| - 1 && p in run[k].ops && IndexedDoc(run[k + 1], t, id).None?
  }

  /** A deletion about to return has taken every document of the thread out of the index. */
  lemma DeletionRemoved(run: seq<State>, i: nat, p: Pid, t: ThreadId, at: string, existed: bool, id: MessageId) returns (k: nat)
    requires Run(run) && i < |run| && Answered(run[i], p, DeleteThread(t, at), Deleted(existed))
    ensures k < i && RemovedAt(run, k, p, t, id)
  {
    hide Step, Safe;
    var k', c := Decided(run, i, p);
    k := k';
    RunSafe(run, k);
    assert run[k].ops[p].pc.action in {DropThreadDocs(t), EvictLock(t, false)};
    HolderView(run[k], p, t);
    hide Serves, ServesAction, LeadsTo, Run;
    DeletionStep(run[k], p, c, run[k + 1], t, id);
  }

  lemma DeletionStep(s: State, p: Pid, c: Choice, s': State, t: ThreadId, id: MessageId)
    requires p in s.ops && s.ops[p].pc.Act? && s.ops[p].pc.action in {DropThreadDocs(t), EvictLock(t, false)}
    requires Step(s, p, c, s') && ThreadInv(ViewOf(s, t), Some(s.ops[p].pc.action))
    ensures IndexedDoc(s', t, id).None?
  {
    hide Fold;
  }

  lemma PurgeRemoved(run: seq<State>, i: nat, p: Pid, counts: map<ThreadId, nat>, t: ThreadId, id: MessageId) returns (k: nat)
    requires Run(run) && i < |run| && Answered(run[i], p, PurgeThreads, Purged(counts))
    ensures k < i && RemovedAt(run, k, p, t, id)
  {
    hide Step;
    var k1, c1 := Decided(run, i, p);
    assert run[k1].ops[p].pc == Act(ClearLocks(counts));
    var k0, c0 := Decided(run, k1, p);
    k := k0;
    hide Run;
    PurgeStep(run[k], p, c0, run[k + 1], counts, t, id);
  }

  lemma PurgeStep(s: State, p: Pid, c: Choice, s': State, counts: map<ThreadId, nat>, t: ThreadId, id: MessageId)
    requires p in s.ops && s.ops[p].pc == Act(DropIndex(counts)) && Step(s, p, c, s')
    ensures IndexedDoc(s', t, id).None?
  {
  }

  /** The first row with the id is where a transcript is cut. */
  lemma {:induction false} CutPointFirst(rows: seq<Message>, id: MessageId)
    ensures CutPoint(rows, id) <= |rows|
    ensures CutPoint(rows, id) < |rows| ==> rows[CutPoint(rows, id)].id == id
    ensures forall i :: 0 <= i < CutPoint(rows, id) ==> rows[i].id != id
  {
    if rows != [] && rows[0].id != id {
      CutPointFirst(rows[1..], id);
      assert forall i :: 0 < i < |rows| ==> rows[i] == rows[1..][i - 1];
    }
  }

  /**
   * A truncation that answered found the transcript `rows` during its call, with the id first
   * at `cut`; the transcript became the rows before the cut, then the index held exactly those of
   * the thread, and the answer is the number of the others.
   */
  lemma TruncationRemoved(run: seq<State>, i: nat, p: Pid, t: ThreadId, from: MessageId, removed: nat)
    returns (k0: nat, k: nat, rows: seq<Message>, cut: nat)
    requires Run(run) && i < |run| && Answered(run[i], p, DeleteMessagesFrom(t, from), Truncated(Some(removed)))
    ensures k0 < k < i && p in run[k0].ops && rows == FilesOf(run[k0], t)
    ensures cut < |rows| && rows[cut].id == from && (forall x :: 0 <= x < cut ==> rows[x].id != from)
    ensures removed == |rows| - cut
    ensures FilesOf(run[k0 + 1], t) == rows[..cut]
    ensures p in run[k].ops && forall id :: IndexedDoc(run[k + 1], t, id) == LookupDoc(rows[..cut], id)
  {
    hide Step;
    var k2, c2 := Decided(run, i, p);
    var k1, c1 := Decided(run, k2, p);
    var z, c0 := Decided(run, k1, p);
    k0, k := z, k1;
    rows := FilesOf(run[k0], t);
    cut := CutPoint(rows, from);
    CutPointFirst(rows, from);
    assert run[k].ops[p].pc == Act(RebuildIndex(t, rows[..cut], removed));
    hide Run, LeadsTo;
    CutStep(run[k0], p, c0, run[k0 + 1], t, from, rows[..cut], removed);
    forall id ensures IndexedDoc(run[k + 1], t, id) == LookupDoc(rows[..cut], id) {
      RebuildStep(run[k], p, c1, run[k + 1], t, rows[..cut], removed, id);
    }
  }

  lemma CutStep(s: State, p: Pid, c: Choice, s': State, t: ThreadId, from: MessageId, kept: seq<Message>, removed: nat)
    requires p in s.ops && s.ops[p].pc == Act(CutTranscript(t, from)) && Step(s, p, c, s')
    requires Destination(s'.ops[p].pc) == Act(RebuildIndex(t, kept, removed))
    ensures FilesOf(s', t) == kept
  {
    TailDestinations();
    assert Destination(Act(RebuildIndex(t, kept, removed))).Act?;
    hide Destination, EndBuildThread, CutPoint;
  }

  lemma RebuildStep(s: State, p: Pid, c: Choice, s': State, t: ThreadId, kept: seq<Message>, removed: nat, id: MessageId)
    requires p in s.ops && s.ops[p].pc == Act(RebuildIndex(t, kept, removed)) && Step(s, p, c, s')
    ensures IndexedDoc(s', t, id) == LookupDoc(kept, id)
  {
    hide Lookup;
  }

  /** A call that is appending a message with this id to the thread. */
  predicate Reappends(op: Op, t: ThreadId, id: MessageId) {
    op.request.AppendMessage? && op.request.threadId == t && op.request.message.id == id && !op.pc.Done?
  }

  /** No such call is in progress at any time between two states. */
  ghost predicate NotReappended(run: seq<State>, a: nat, b: nat, t: ThreadId, id: MessageId)
    requires b < |run|
  {
    forall l, r :: a <= l <= b && r in run[l].ops ==> !Reappends(run[l].ops[r], t, id)
  }

  /** A search called after the message was removed does not see it, unless it was appended again. */
  lemma SearchMissesRemoved(run: seq<State>, k: nat, p: Pid, i: nat, j: nat, q: Pid, t: ThreadId, id: MessageId, ix: Index)
    requires Run(run) && k < i <= j < |run| && RemovedAt(run, k, p, t, id) && NotReappended(run, k, j, t, id)
    requires q !in run[i].ops && Answered(run[j], q, SearchMessages, Searched(ix))
    ensures IndexGet(ix, t, id).None?
  {
    hide Safe, IndexedDoc, LookupDoc;
    var l := SearchRanOn(run, i, j, q, ix);
    var x, r := AbsentStays(run, k + 1, l, t, id);
    if IndexedDoc(run[l], t, id).Some? {
      AddAppends(run, x, r, t, id);
    }
  }

  /** After `delete_thread` returned, no search sees any message of the thread that is not appended again. */
  lemma SearchAfterDelete(run: seq<State>, a0: nat, i: nat, j: nat, p: Pid, q: Pid, t: ThreadId, at: string, existed: bool, id: MessageId, ix: Index)
    requires Run(run) && a0 <= i <= j < |run|
    requires p !in run[a0].ops && Answered(run[i], p, DeleteThread(t, at), Deleted(existed))
    requires q !in run[i].ops && Answered(run[j], q, SearchMessages, Searched(ix))
    requires NotReappended(run, a0, j, t, id)
    ensures IndexGet(ix, t, id).None?
  {
    hide RemovedAt;
    var k := DeletionRemoved(run, i, p, t, at, existed, id);
    LaterSearch(run, a0, k, p, i, j, q, t, id, ix);
  }

  /** After `purge_threads` returned, no search sees any message that is not appended again. */
  lemma SearchAfterPurge(run: seq<State>, a0: nat, i: nat, j: nat, p: Pid, q: Pid, counts: map<ThreadId, nat>, t: ThreadId, id: MessageId, ix: Index)
    requires Run(run) && a0 <= i <= j < |run|
    requires p !in run[a0].ops && Answered(run[i], p, PurgeThreads, Purged(counts))
    requires q !in run[i].ops && Answered(run[j], q, SearchMessages, Searched(ix))
    requires NotReappended(run, a0, j, t, id)
    ensures IndexGet(ix, t, id).None?
  {
    hide RemovedAt;
    var k := PurgeRemoved(run, i, p, counts, t, id);
    LaterSearch(run, a0, k, p, i, j, q, t, id, ix);
  }

  /**
   * After `delete_messages_from` returned, no search sees a message that was in the transcript
   * only from the given id on, unless it is appended again.
   */
  lemma SearchAfterTruncate(run: seq<State>, a0: nat, i: nat, j: nat, p: Pid, q: Pid, t: ThreadId, from: MessageId, removed: nat, ix: Index)
    returns (k: nat, rows: seq<Message>, cut: nat)
    requires Run(run) && a0 <= i <= j < |run|
    requires p !in run[a0].ops && Answered(run[i], p, DeleteMessagesFrom(t, from), Truncated(Some(removed)))
    requires q !in run[i].ops && Answered(run[j], q, SearchMessages, Searched(ix))
    ensures a0 < k < i && rows == FilesOf(run[k], t) && removed == |rows| - cut
    ensures cut < |rows| && rows[cut].id == from && (forall x :: 0 <= x < cut ==> rows[x].id != from)
    ensures forall id :: Lookup(rows[..cut], id).None? && NotReappended(run, a0, j, t, id) ==> IndexGet(ix, t, id).None?
  {
    hide Run, IndexedDoc;
    var k1;
    k, k1, rows, cut := TruncationRemoved(run, i, p, t, from, removed);
    if k <= a0 {
      CallsStay(run, k, a0, p);
    }
    forall id | Lookup(rows[..cut], id).None? && NotReappended(run, a0, j, t, id) ensures IndexGet(ix, t, id).None? {
      assert IndexedDoc(run[k1 + 1], t, id) == LookupDoc(rows[..cut], id) == None;
      LaterSearch(run, a0, k1, p, i, j, q, t, id, ix);
    }
  }

  lemma LaterSearch(run: seq<State>, a0: nat, k: nat, p: Pid, i: nat, j: nat, q: Pid, t: ThreadId, id: MessageId, ix: Index)
    requires Run(run) && a0 <= i <= j < |run| && k < i
    requires p !in run[a0].ops && RemovedAt(run, k, p, t, id) && NotReappended(run, a0, j, t, id)
    requires q !in run[i].ops && Answered(run[j], q, SearchMessages, Searched(ix))
    ensures IndexGet(ix, t, id).None?
  {
    hide Run;
    if k <= a0 {
      CallsStay(run, k, a0, p);
    }
    SearchMissesRemoved(run, k, p, i, j, q, t, id, ix);
  }
}
