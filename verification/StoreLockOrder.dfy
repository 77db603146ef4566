/**
 * Lock discipline of the store protocol: mutual exclusion, one mutex object per thread id,
 * and freedom from deadlock.
 */
module StoreLockOrder {
  import opened Options
  import opened ConversationTypes
  import opened StoreLocks
  import opened StoreProtocol

  // ---------- what each pending action relies on ----------

  /** The thread whose mutex is held from now until the action is done. */
  function PinnedThread(a: Action): Option<ThreadId> {
    match a
    case ReadTranscript(t) => Some(t)
    case FindDuplicate(t, _) => Some(t)
    case WriteRow(t, _) => Some(t)
    case RecordAppend(t, _) => Some(t)
    case IndexAppend(t, _) => Some(t)
    case LogAppend(t, _) => Some(t)
    case RebuildIndex(t, _, _) => Some(t)
    case LogStats(t, _, _) => Some(t)
    case RemoveFile(t) => Some(t)
    case EvictLock(t, _) => Some(t)
    case DropThreadDocs(t) => Some(t)
    case _ => None
  }

  predicate IsBuilder(a: Action) {
    a.SnapshotThreads? || a.ScanThread? || a.DrainJournal?
  }

  predicate PinsBuild(a: Action) {
    IsBuilder(a) || a.BeginJournal? || a.PublishIndex? || a.RebuildIndex? || a.LogStats?
  }

  predicate PinsMeta(a: Action) {
    a.IndexAppend? || a.LogAppend? || a.PublishIndex? || a.DropIndex? || a.ClearLocks?
  }

  predicate PinsWrite(a: Action) {
    a.RemoveFile? || a.EvictLock? || a.DropThreadDocs? || a.DropIndex? || a.ClearLocks?
  }

  predicate Covers(h: Held, a: Action) {
    && (PinnedThread(a).Some? ==> h.thread && h.arc == PinnedThread(a))
    && (PinsBuild(a) ==> h.build)
    && (PinsMeta(a) ==> h.metadata)
    && (PinsWrite(a) ==> h.write)
    && (PinnedThread(a).Some? || PinsBuild(a) || PinsWrite(a) || a.QueryIndex? ==> h.read || h.write)
  }

  /** A lock step takes a lock that outranks those held, or frees one: lifecycle < index build < thread < metadata. */
  predicate InOrder(step: Pc, after: Held) {
    match step
    case TakeRead(_) => after == READING
    case TakeWrite(_) => after == WRITING
    case TakeBuild(_) => after == BUILDING
    case FetchArc(t, _) => OnlyLifecycleAndBuild(after.(arc := None)) && after.arc == Some(t)
    case TakeThread(_) => after.thread && after.arc.Some? && !after.metadata
    case TakeMeta(_) => after.metadata
    case FreeMeta(_) => !after.metadata
    case FreeThread(_) => !after.thread && after.arc.Some? && !after.metadata
    case DropArc(_, _) => OnlyLifecycleAndBuild(after)
    case FreeBuild(_) => after == READING
    case FreeRead(_) => after == NOTHING
    case FreeWrite(_) => after == NOTHING
    case _ => true
  }

  /** The rest of the operation takes its locks in rank order, and what its pending action relies on is held by then. */
  predicate Disciplined(pc: Pc) {
    && Sane(HeldBy(pc))
    && (Goal(pc).Some? ==> Covers(HeldBy(pc), Goal(pc).value))
    && (pc.Act? || pc.Done? || (InOrder(pc, HeldBy(pc.next)) && Disciplined(pc.next)))
  }

  /** Nothing is held without the lifecycle guard, and no mutex without its Arc. */
  predicate Sane(h: Held) {
    && (h.arc.Some? || h.build || h.metadata ==> h.read || h.write)
    && (h.thread ==> h.arc.Some?)
    && !(h.read && h.write)
  }

  predicate OnlyLifecycleAndBuild(h: Held) {
    h.arc.None? && !h.thread && !h.metadata && (h.read || h.write)
  }

  // ---------- discipline of the program tails ----------

  lemma ActOk(a: Action)
    ensures Disciplined(Act(a)) && HeldBy(Act(a)) == HeldAt(a) && Goal(Act(a)) == Some(a)
  {
  }

  /** Putting a lock step in front of a disciplined tail. */
  lemma Prepend(step: Pc)
    requires !step.Act? && !step.Done? && Disciplined(step.next) && InOrder(step, HeldBy(step.next))
    requires Sane(HeldBefore(step, HeldBy(step.next)))
    requires Goal(step.next).Some? ==> Covers(HeldBefore(step, HeldBy(step.next)), Goal(step.next).value)
    ensures Disciplined(step) && HeldBy(step) == HeldBefore(step, HeldBy(step.next)) && Goal(step) == Goal(step.next)
  {
  }

  lemma EndReadOk(r: Response)
    ensures Disciplined(EndRead(r)) && HeldBy(EndRead(r)) == READING && Goal(EndRead(r)).None?
  {
    assert Disciplined(Done(r));
  }

  lemma EndThreadOk(t: ThreadId, r: Response)
    ensures Disciplined(EndThread(t, r)) && HeldBy(EndThread(t, r)) == WithThread(READING, t) && Goal(EndThread(t, r)).None?
  {
    EndReadOk(r);
    assert Disciplined(DropArc(t, EndRead(r)));
  }

  lemma EndThreadMetaOk(t: ThreadId, r: Response)
    ensures Disciplined(EndThreadMeta(t, r)) && Goal(EndThreadMeta(t, r)).None?
    ensures HeldBy(EndThreadMeta(t, r)) == WithMeta(WithThread(READING, t))
  {
    EndThreadOk(t, r);
  }

  lemma EndBuildThreadOk(t: ThreadId, r: Response)
    ensures Disciplined(EndBuildThread(t, r)) && Goal(EndBuildThread(t, r)).None?
    ensures HeldBy(EndBuildThread(t, r)) == WithThread(BUILDING, t)
  {
    EndReadOk(r);
    assert Disciplined(FreeBuild(EndRead(r)));
    assert Disciplined(DropArc(t, FreeBuild(EndRead(r))));
  }

  lemma EndWriteThreadOk(t: ThreadId, r: Response)
    ensures Disciplined(EndWriteThread(t, r)) && Goal(EndWriteThread(t, r)).None?
    ensures HeldBy(EndWriteThread(t, r)) == WithThread(WRITING, t)
  {
    assert Disciplined(Done(r));
    assert Disciplined(FreeWrite(Done(r)));
    assert Disciplined(DropArc(t, FreeWrite(Done(r))));
  }

  lemma OnThreadOk(t: ThreadId, next: Pc)
    requires Disciplined(next) && HeldBy(next).thread && HeldBy(next).arc == Some(t) && !HeldBy(next).metadata
    requires HeldBy(next).read || HeldBy(next).write
    requires Goal(next).Some? ==> Covers(HeldBy(next).(thread := false, arc := None), Goal(next).value)
    ensures Disciplined(OnThread(t, next))
    ensures HeldBy(OnThread(t, next)) == HeldBy(next).(thread := false, arc := None)
    ensures Goal(OnThread(t, next)) == Goal(next)
  {
    assert Goal(TakeThread(next)) == Goal(next);
    assert HeldBy(TakeThread(next)) == HeldBy(next).(thread := false);
    assert Disciplined(TakeThread(next));
  }

  lemma RepairLoopOk(todo: seq<ThreadId>)
    ensures Disciplined(RepairLoop(todo)) && HeldBy(RepairLoop(todo)) == READING
    ensures Goal(RepairLoop(todo)) == Some(if todo == [] then FoldLog else RepairStats(todo[0], todo[1..]))
  {
    if todo != [] {
      var step := TakeMeta(Act(RepairStats(todo[0], todo[1..])));
      assert Disciplined(Act(RepairStats(todo[0], todo[1..])));
      OnThreadOk(todo[0], step);
    } else {
      assert Disciplined(Act(FoldLog));
    }
  }

  lemma BuildLoopOk(todo: seq<ThreadId>, idx: Index)
    ensures Disciplined(BuildLoop(todo, idx)) && HeldBy(BuildLoop(todo, idx)) == BUILDING
    ensures Goal(BuildLoop(todo, idx)) == Some(if todo == [] then DrainJournal(idx) else ScanThread(todo[0], todo[1..], idx))
  {
    if todo != [] {
      OnThreadOk(todo[0], Act(ScanThread(todo[0], todo[1..], idx)));
    } else {
      assert Disciplined(Act(DrainJournal(idx)));
    }
  }

  /** The first action of a call. */
  function FirstAction(request: Request): Action {
    match request
    case EnsureThread(t, _, _, _, _, _) => AppendUpsert(t, request)
    case UpdateThreadTitle(t, _, _) => AppendUpsert(t, request)
    case UpdateThreadLabels(t, _, _) => AppendUpsert(t, request)
    case ListThreads => FoldLog
    case GetMessages(t) => CheckLiveForRead(t)
    case SearchMessages => PeekCache
    case AppendMessage(t, m) => CheckLiveForAppend(t, m)
    case UpdateMessage(t, id, metadata) => PatchRow(t, id, metadata)
    case DeleteMessagesFrom(t, id) => CutTranscript(t, id)
    case DeleteThread(t, at) => Tombstone(t, at)
    case PurgeThreads => WipeFiles
  }

  /** Every call starts without locks and takes all of them in rank order. */
  lemma StartDisciplined(request: Request)
    ensures Disciplined(Start(request))
    ensures HeldBy(Start(request)) == NOTHING
    ensures Goal(Start(request)) == Some(FirstAction(request))
  {
    hide Disciplined, HeldBy, Goal, OnThread;
    var a := FirstAction(request);
    ActOk(a);
    var tail := Act(a);
    if HeldAt(a).metadata {
      tail := TakeMeta(tail);
      Prepend(tail);
    }
    if a.AppendUpsert? || a.CheckLiveForRead? || a.CheckLiveForAppend? || a.Tombstone? || a.PatchRow? || a.CutTranscript? {
      OnThreadOk(a.t, tail);
      tail := OnThread(a.t, tail);
    }
    if a.CutTranscript? {
      tail := TakeBuild(tail);
      Prepend(tail);
    }
    tail := if HeldAt(a).write then TakeWrite(tail) else TakeRead(tail);
    Prepend(tail);
    assert tail == Start(request);
  }

  /** A point reached by an action: same locks held, discipline kept. */
  ghost predicate Continues(a: Action, n: Pc) {
    Disciplined(n) && HeldBy(n) == HeldAt(a)
  }

  // ---------- who holds what ----------

  /** The lock tables say that `p` holds exactly `h`, with `arc` as its mutex object. */
  predicate Tabled(locks: Locks, p: Pid, arc: Option<LockId>, h: Held) {
    && (h.read <==> p in locks.readers)
    && (h.write <==> locks.writer == Some(p))
    && (h.build <==> locks.build == Some(p))
    && (h.metadata <==> locks.metadata == Some(p))
    && (h.arc.Some? <==> arc.Some?)
    && (h.thread <==> arc.Some? && arc.value in locks.owner && locks.owner[arc.value] == p)
    && (arc.Some? ==> arc.value < locks.next)
    && (h.arc.Some? ==> h.write || (h.arc.value in locks.registry && Some(locks.registry[h.arc.value]) == arc))
  }

  /** The lock tables agree with the program counter of one operation. */
  ghost predicate OpLocks(s: State, p: Pid)
    requires p in s.ops
  {
    Disciplined(s.ops[p].pc) && Tabled(s.locks, p, s.ops[p].arc, HeldBy(s.ops[p].pc))
  }

  predicate Owned(locks: Locks, ops: map<Pid, Op>) {
    forall l :: l in locks.owner ==> locks.owner[l] in ops && ops[locks.owner[l]].arc == Some(l)
  }

  /** Every lock names an operation that is there, and a thread mutex one that has its Arc. */
  ghost predicate Named(locks: Locks, ops: map<Pid, Op>) {
    && locks.readers <= ops.Keys
    && (locks.writer.Some? ==> locks.writer.value in ops && locks.readers == {})
    && (locks.build.Some? ==> locks.build.value in ops)
    && (locks.metadata.Some? ==> locks.metadata.value in ops)
    && Owned(locks, ops)
    && (forall t :: t in locks.registry ==> locks.registry[t] < locks.next)
  }

  ghost predicate LockInv(s: State) {
    (forall p :: p in s.ops ==> OpLocks(s, p)) && Named(s.locks, s.ops)
  }

  /** While one operation holds the lifecycle write guard no other holds any lock. */
  lemma WriterAlone(s: State, p: Pid, q: Pid)
    requires LockInv(s) && p in s.ops && q in s.ops && p != q
    requires HeldBy(s.ops[p].pc).write
    ensures HeldBy(s.ops[q].pc) == NOTHING
  {
    assert OpLocks(s, p) && OpLocks(s, q);
  }

  /** Two operations that hold Arcs for one thread id share one mutex object. */
  lemma OneMutexPerThread(s: State, p: Pid, q: Pid, t: ThreadId)
    requires LockInv(s) && p in s.ops && q in s.ops
    requires HeldBy(s.ops[p].pc).arc == Some(t) && HeldBy(s.ops[q].pc).arc == Some(t)
    ensures s.ops[p].arc == s.ops[q].arc
  {
    assert OpLocks(s, p) && OpLocks(s, q);
    if p != q && HeldBy(s.ops[p].pc).write {
      WriterAlone(s, p, q);
    } else if p != q && HeldBy(s.ops[q].pc).write {
      WriterAlone(s, q, p);
    }
  }

  /** So a thread's mutex has one holder. */
  lemma OneHolderPerThread(s: State, p: Pid, q: Pid, t: ThreadId)
    requires LockInv(s) && p in s.ops && q in s.ops
    requires HeldBy(s.ops[p].pc).arc == Some(t) && HeldBy(s.ops[q].pc).arc == Some(t)
    requires HeldBy(s.ops[p].pc).thread && HeldBy(s.ops[q].pc).thread
    ensures p == q
  {
    OneMutexPerThread(s, p, q, t);
    assert OpLocks(s, p) && OpLocks(s, q);
  }

  // ---------- the lock steps keep the tables ----------

  /** A lock step turns the tables for what is held before it into those for what is held after it. */
  lemma StepTabled(locks: Locks, p: Pid, op: Op, after: Held)
    requires !op.pc.Act? && !op.pc.Done? && !op.pc.FetchArc? && CanStep(locks, op)
    requires InOrder(op.pc, after) && Sane(after) && Sane(HeldBefore(op.pc, after))
    requires Tabled(locks, p, op.arc, HeldBefore(op.pc, after))
    ensures Tabled(Stepped(locks, p, op), p, ArcAfter(op), after)
  {
  }

  /** An operation frees only what it holds. */
  predicate Frees(locks: Locks, p: Pid, op: Op) {
    match op.pc
    case FreeMeta(_) => locks.metadata == Some(p)
    case FreeThread(_) => op.arc.Some? && op.arc.value in locks.owner && locks.owner[op.arc.value] == p
    case FreeBuild(_) => locks.build == Some(p)
    case FreeWrite(_) => locks.writer == Some(p)
    case _ => true
  }

  lemma TabledFrees(locks: Locks, p: Pid, op: Op, after: Held)
    requires Tabled(locks, p, op.arc, HeldBefore(op.pc, after)) && CanStep(locks, op)
    ensures Frees(locks, p, op)
  {
  }

  /** So a step leaves what the others hold alone. */
  lemma StepTabledOther(locks: Locks, p: Pid, op: Op, q: Pid, arc: Option<LockId>, h: Held)
    requires p != q && CanStep(locks, op) && Frees(locks, p, op) && Tabled(locks, q, arc, h)
    ensures Tabled(Stepped(locks, p, op), q, arc, h)
  {
  }

  lemma StepOwned(locks: Locks, ops: map<Pid, Op>, p: Pid, after: Held)
    requires p in ops && Owned(locks, ops)
    requires var op := ops[p];
             && !op.pc.Act? && !op.pc.Done? && !op.pc.FetchArc? && CanStep(locks, op)
             && InOrder(op.pc, after) && Tabled(locks, p, op.arc, HeldBefore(op.pc, after))
    ensures Owned(Stepped(locks, p, ops[p]), ops[p := Advanced(ops[p])])
  {
    var op := ops[p];
    var locks' := Stepped(locks, p, op);
    assert op.pc.DropArc? ==> forall l :: l in locks.owner ==> locks.owner[l] != p;
    hide InOrder, HeldBefore, Tabled;
    if op.pc.TakeThread? || op.pc.FreeThread? {
    } else {
      assert locks'.owner == locks.owner;
    }
  }

  lemma StepNamed(locks: Locks, ops: map<Pid, Op>, p: Pid)
    requires p in ops && Named(locks, ops) && !ops[p].pc.Act? && !ops[p].pc.Done? && !ops[p].pc.FetchArc?
    requires CanStep(locks, ops[p]) && Owned(Stepped(locks, p, ops[p]), ops[p := Advanced(ops[p])])
    ensures Named(Stepped(locks, p, ops[p]), ops[p := Advanced(ops[p])])
  {
    hide Owned;
  }

  /** Taking or freeing a lock, or dropping an Arc. */
  lemma LockSteps(s: State, p: Pid)
    requires LockInv(s) && p in s.ops && CanStep(s.locks, s.ops[p])
    requires !s.ops[p].pc.Act? && !s.ops[p].pc.Done? && !s.ops[p].pc.FetchArc?
    ensures LockInv(LockStepped(s, p))
  {
    assert Owned(s.locks, s.ops);
    hide HeldBefore, InOrder, Tabled, CanStep, Named, Owned, Sane, Covers, Goal, Stepped, Frees;
    var op := s.ops[p];
    var after := HeldBy(op.pc.next);
    assert OpLocks(s, p) && HeldBy(op.pc) == HeldBefore(op.pc, after);
    assert InOrder(op.pc, after) && Sane(HeldBefore(op.pc, after)) && Disciplined(op.pc.next);
    assert Sane(after);
    hide Disciplined, HeldBy;
    StepTabled(s.locks, p, op, after);
    TabledFrees(s.locks, p, op, after);
    StepOwned(s.locks, s.ops, p, after);
    StepNamed(s.locks, s.ops, p);
    var s' := LockStepped(s, p);
    forall q | q in s'.ops ensures OpLocks(s', q) {
      if q != p {
        assert OpLocks(s, q);
        StepTabledOther(s.locks, p, op, q, s.ops[q].arc, HeldBy(s.ops[q].pc));
      }
    }
  }

  /** Fetching an Arc changes only the registry, the counter and the operation. */
  lemma FetchedShape(s: State, p: Pid, t: ThreadId, n: Pc)
    requires p in s.ops && s.ops[p].pc == FetchArc(t, n) && s.ops[p].arc.None?
    requires Named(s.locks, s.ops)
    ensures var s' := Fetched(s, p, t, n);
            && s'.ops == s.ops[p := s.ops[p].(pc := n, arc := s'.ops[p].arc)]
            && s'.locks == s.locks.(registry := s'.locks.registry, next := s'.locks.next)
            && s'.locks.next >= s.locks.next
            && t in s'.locks.registry && s'.ops[p].arc == Some(s'.locks.registry[t])
            && Named(s'.locks, s'.ops)
  {
    hide Referenced;
  }

  /** Pruning dead registry entries never separates two operations on one thread. */
  lemma FetchKeepsRegistered(s: State, p: Pid, q: Pid, t: ThreadId, u: ThreadId, n: Pc)
    requires p in s.ops && q in s.ops && q != p && s.ops[p].pc == FetchArc(t, n)
    requires u in s.locks.registry && s.ops[q].arc == Some(s.locks.registry[u])
    ensures u in Fetched(s, p, t, n).locks.registry
    ensures Fetched(s, p, t, n).locks.registry[u] == s.locks.registry[u]
  {
    assert s.ops[q].arc.value in Referenced(s.ops);
    FetchKeepsMutex(s.locks.registry, Referenced(s.ops), t, s.locks.next, u);
  }

  lemma FetchKeepsOthers(s: State, p: Pid, q: Pid, t: ThreadId, n: Pc)
    requires LockInv(s) && p in s.ops && q in s.ops && q != p
    requires s.ops[p].pc == FetchArc(t, n)
    ensures OpLocks(Fetched(s, p, t, n), q)
  {
    assert OpLocks(s, p) && OpLocks(s, q) && !HeldBy(s.ops[p].pc).arc.Some? && OnlyLifecycleAndBuild(HeldBy(s.ops[p].pc));
    FetchedShape(s, p, t, n);
    var h := HeldBy(s.ops[q].pc);
    hide Disciplined, Fetched, HeldBy, Named;
    if h.arc.Some? && !h.write {
      FetchKeepsRegistered(s, p, q, t, h.arc.value, n);
    }
  }

  lemma FetchKeepsOwn(s: State, p: Pid, t: ThreadId, n: Pc)
    requires LockInv(s) && p in s.ops && s.ops[p].pc == FetchArc(t, n)
    ensures OpLocks(Fetched(s, p, t, n), p)
  {
    var after := HeldBy(n);
    assert OpLocks(s, p) && HeldBy(s.ops[p].pc) == after.(arc := None) && after.arc == Some(t) && Disciplined(n);
    assert OnlyLifecycleAndBuild(after.(arc := None));
    hide Disciplined, HeldBy, Goal;
    assert forall l :: l in s.locks.owner ==> s.locks.owner[l] != p;
    FetchedShape(s, p, t, n);
    hide Fetched, LockInv;
  }

  lemma FetchArcStep(s: State, p: Pid, t: ThreadId, n: Pc)
    requires LockInv(s) && p in s.ops && s.ops[p].pc == FetchArc(t, n)
    ensures LockInv(Fetched(s, p, t, n))
  {
    assert s.ops[p].arc.None? by {
      assert OpLocks(s, p);
    }
    var s' := Fetched(s, p, t, n);
    FetchedShape(s, p, t, n);
    hide OpLocks, Fetched, Named;
    forall q | q in s'.ops ensures OpLocks(s', q) {
      if q != p {
        FetchKeepsOthers(s, p, q, t, n);
      } else {
        FetchKeepsOwn(s, p, t, n);
      }
    }
  }

  /** An action keeps the tables when it continues under the same locks and at most a writer shrinks the registry. */
  lemma ActionSteps(s: State, p: Pid, a: Action, o: Outcome, s': State)
    requires LockInv(s) && p in s.ops && s.ops[p].pc == Act(a)
    requires ActionStep(s, p, o, s') && Continues(a, o.pc)
    requires o.state.locks == s.locks.(registry := o.state.locks.registry)
    requires o.state.locks.registry == s.locks.registry
          || (HeldAt(a).write && forall t :: t in o.state.locks.registry ==> t in s.locks.registry && o.state.locks.registry[t] == s.locks.registry[t])
    ensures LockInv(s')
  {
    assert OpLocks(s, p);
    forall q | q in s'.ops ensures OpLocks(s', q) {
      assert OpLocks(s, q);
      if q != p && HeldAt(a).write {
        WriterAlone(s, p, q);
      }
    }
  }

  lemma SpawnStep(s: State, p: Pid, request: Request, s': State)
    requires LockInv(s) && Spawn(s, p, request, s')
    ensures LockInv(s')
  {
    StartDisciplined(request);
    forall q | q in s'.ops ensures OpLocks(s', q) {
      if q != p {
        assert OpLocks(s, q);
      }
    }
  }

  // ---------- freedom from deadlock ----------

  ghost predicate Unfinished(s: State, p: Pid) {
    p in s.ops && !s.ops[p].pc.Done?
  }

  /** The next step of the operation can be taken, even if new readers must wait for a waiting writer. */
  ghost predicate Ready(s: State, p: Pid) {
    p in s.ops && !s.ops[p].pc.Done? && CanStep(s.locks, s.ops[p])
    && (s.ops[p].pc.TakeRead? ==> forall q :: q in s.ops ==> !s.ops[q].pc.TakeWrite?)
  }

  lemma HolderReady(s: State, p: Pid)
    requires LockInv(s) && p in s.ops
    requires HeldBy(s.ops[p].pc) != NOTHING
    requires HeldBy(s.ops[p].pc).metadata || s.locks.metadata.None?
    requires HeldBy(s.ops[p].pc).metadata || HeldBy(s.ops[p].pc).thread || s.locks.owner == map[]
    requires HeldBy(s.ops[p].pc).metadata || HeldBy(s.ops[p].pc).thread || HeldBy(s.ops[p].pc).build || s.locks.build.None?
    ensures Ready(s, p)
  {
    assert OpLocks(s, p);
  }

  /** As long as some operation is unfinished, some operation can take its next step. */
  lemma NoDeadlock(s: State, p: Pid) returns (q: Pid)
    requires LockInv(s) && Unfinished(s, p)
    ensures Ready(s, q)
  {
    if s.locks.metadata.Some? {
      q := s.locks.metadata.value;
      assert OpLocks(s, q);
      HolderReady(s, q);
    } else if l :| l in s.locks.owner {
      q := s.locks.owner[l];
      assert OpLocks(s, q);
      HolderReady(s, q);
    } else if s.locks.build.Some? {
      q := s.locks.build.value;
      assert OpLocks(s, q);
      HolderReady(s, q);
    } else if s.locks.writer.Some? {
      q := s.locks.writer.value;
      assert OpLocks(s, q);
      HolderReady(s, q);
    } else if r :| r in s.locks.readers {
      q := r;
      assert OpLocks(s, q);
      HolderReady(s, q);
    } else if w :| w in s.ops && s.ops[w].pc.TakeWrite? {
      q := w;
    } else {
      q := p;
      assert OpLocks(s, p);
    }
  }

  /** Every finite set of ids can be visited in some order. */
  lemma EnumerationExists(ids: set<ThreadId>) returns (order: seq<ThreadId>)
    ensures Enumerates(order, ids)
  {
    if ids == {} {
      order := [];
    } else {
      var t :| t in ids;
      var rest := EnumerationExists(ids - {t});
      order := [t] + rest;
      assert forall u :: u in order <==> u == t || u in rest;
    }
  }

  lemma ActionHasChoice(s: State, a: Action) returns (c: Choice)
    ensures Admissible(s, a, c)
  {
    var ids := if a.FoldLog? then Unmeasured(TableOf(s)) else TableOf(s).Keys;
    var order := EnumerationExists(ids);
    c := Choice(true, order);
  }

  /** A ready operation has a step. */
  lemma ReadyHasStep(s: State, p: Pid) returns (c: Choice, s': State)
    requires Ready(s, p)
    ensures Step(s, p, c, s')
  {
    hide Perform, Admissible, Fetched, CanStep, Stepped;
    var op := s.ops[p];
    c := Choice(true, []);
    if op.pc.Act? {
      c := ActionHasChoice(s, op.pc.action);
      var o := Perform(s, op.pc.action, c);
      s' := o.state.(ops := s.ops[p := op.(pc := o.pc)]);
    } else if op.pc.FetchArc? {
      s' := Fetched(s, p, op.pc.t, op.pc.next);
    } else {
      s' := LockStepped(s, p);
    }
  }
}
