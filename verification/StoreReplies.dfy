/**
 * The counts, timestamps and rows the calls answer with, over whole runs, and what a lost
 * statistics line does to them.
 */
module StoreReplies {
  import opened Options
  import opened ConversationTypes
  import opened ThreadLog
  import opened StoreProtocol
  import opened StoreLockOrder
  import opened StoreSafety
  import opened StoreRuns
  import opened StoreHistory

  /** A listing shows every live thread measured; the numbers are the transcript's own at that moment. */
  lemma ListedExact(run: seq<State>, i: nat, p: Pid, table: Table) returns (k: nat)
    requires Run(run) && i < |run| && Answered(run[i], p, ListThreads, Listed(table))
    ensures k < i && p in run[k].ops && table == TableOf(run[k])
    ensures forall t :: t in table ==> table[t].messageCount.Some? && table[t].lastMessageAt.Some?
    ensures forall t :: t in table && Unlocked(run[k], t) && t !in run[k].history.lost ==>
              table[t].messageCount == Some(|FilesOf(run[k], t)|)
              && table[t].lastMessageAt == Some(LastAt(table[t], FilesOf(run[k], t)))
  {
    hide Step, ServesAction;
    var k', c := Decided(run, i, p);
    k := k';
    hide LeadsTo, Fold, Unlocked, Run;
    assert forall t :: t in table ==> t !in Unmeasured(table);
    forall t | t in table && Unlocked(run[k], t) && t !in run[k].history.lost
      ensures StatsAgree(table[t], FilesOf(run[k], t))
    {
      StatisticsAgree(run, k, t);
    }
  }

  /** Nobody else touches any thread while files are wiped. */
  lemma WipeSeesQuiet(s: State, p: Pid, t: ThreadId)
    requires Safe(s) && p in s.ops && s.ops[p].pc == Act(WipeFiles)
    ensures ThreadInv(ViewOf(s, t), None)
  {
    HolderNotWiping(s, p);
    SafeParts(s);
    assert HeldBy(s.ops[p].pc).write && PinGoal(s.ops[p].pc, t).None?;
    hide Goal, PinnedThread, ThreadInv, ViewOf, IndexInv;
    forall q | q in s.ops ensures PinGoal(s.ops[q].pc, t).None? {
      if PinGoal(s.ops[q].pc, t).Some? {
        PinnedHolds(s, q, t);
        if q != p {
          WriterAlone(s, p, q);
        }
      }
    }
  }

  lemma WipedExact(s: State, p: Pid)
    requires Safe(s) && p in s.ops && s.ops[p].pc == Act(WipeFiles)
    ensures WipedCounts(s).Keys == TableOf(s).Keys
    ensures forall t :: t in TableOf(s) && t !in s.history.lost ==> WipedCounts(s)[t] == |FilesOf(s, t)|
  {
    hide Safe, Fold, LockInv;
    forall t | t in TableOf(s) && t !in s.history.lost ensures WipedCounts(s)[t] == |FilesOf(s, t)| {
      WipeSeesQuiet(s, p, t);
    }
  }

  /** A purge counts every live thread, and every message of each. */
  lemma PurgedExact(run: seq<State>, i: nat, p: Pid, counts: map<ThreadId, nat>) returns (k: nat)
    requires Run(run) && i < |run| && Answered(run[i], p, PurgeThreads, Purged(counts))
    ensures k < i && p in run[k].ops && counts.Keys == TableOf(run[k]).Keys
    ensures forall t :: t in counts && t !in run[k].history.lost ==> counts[t] == |FilesOf(run[k], t)|
  {
    hide Step, ServesAction, Run, Safe, Fold, WipedCounts;
    var k2, c2 := Decided(run, i, p);
    assert run[k2].ops[p].pc == Act(ClearLocks(counts));
    var k1, c1 := Decided(run, k2, p);
    assert run[k1].ops[p].pc == Act(DropIndex(counts));
    var k0, c0 := Decided(run, k1, p);
    k := k0;
    RunSafe(run, k);
    hide LeadsTo;
    WipedExact(run[k], p);
  }

  lemma UpsertReplyExact(s: State, p: Pid, t: ThreadId, request: Request, after: Table)
    requires Safe(s) && p in s.ops && s.ops[p].pc == Act(AppendUpsert(t, request))
    requires UpsertLine(t, request, TableOf(s)).Some?
    requires after == TableOf(Logged(s, UpsertLine(t, request, TableOf(s)).value))
    ensures t in after
    ensures var reply := SummaryOf(after[t], FilesOf(s, t));
            && (t !in s.history.lost ==> reply == Summary(|FilesOf(s, t)|, LastAt(after[t], FilesOf(s, t))))
            && (t !in TableOf(s) ==> reply == Summary(0, after[t].createdAt))
  {
    hide Safe;
    HolderView(s, p, t);
    var line := UpsertLine(t, request, TableOf(s)).value;
    assert line.Upsert? && line.threadId == t;
    FoldAppend(s.disk.log, line);
    UpsertEntry(TableOf(s), line, t);
    hide UpsertLine, Fold, ApplyEntry;
  }

  /** The summary an upsert answers with is that of the transcript; a new thread's is empty. */
  lemma SummaryExact(run: seq<State>, i: nat, p: Pid, count: nat, last: string) returns (k: nat, t: ThreadId)
    requires Run(run) && i < |run| && p in run[i].ops && run[i].ops[p].pc == Done(Summary(count, last))
    ensures k < i && p in run[k].ops && t in TableOf(run[k + 1])
    ensures t !in run[k].history.lost ==> count == |FilesOf(run[k], t)| && last == LastAt(TableOf(run[k + 1])[t], FilesOf(run[k], t))
    ensures t !in TableOf(run[k]) ==> count == 0 && last == TableOf(run[k + 1])[t].createdAt
  {
    hide Step, ServesAction, Run, Safe, Fold, UpsertLine, Destination;
    var c;
    k, t, c := UpsertDecided(run, i, p);
    var s, a := run[k], run[k].ops[p].pc.action;
    RunSafe(run, k);
    UpsertStep(s, p, c, run[k + 1], t, a.request);
    UpsertReplyExact(s, p, t, a.request, TableOf(run[k + 1]));
  }

  lemma UpsertDecided(run: seq<State>, i: nat, p: Pid) returns (k: nat, t: ThreadId, c: Choice)
    requires Run(run) && i < |run| && p in run[i].ops && run[i].ops[p].pc.Done? && run[i].ops[p].pc.response.Summary?
    ensures k < i && p in run[k].ops && run[k].ops[p].pc.Act? && Step(run[k], p, c, run[k + 1])
    ensures var a := run[k].ops[p].pc.action;
            && a.AppendUpsert? && a.t == t && UpsertLine(t, a.request, TableOf(run[k])).Some?
            && var after := TableOf(Logged(run[k], UpsertLine(t, a.request, TableOf(run[k])).value));
               t in after && run[i].ops[p].pc.response == SummaryOf(after[t], FilesOf(run[k], t))
    ensures p in run[k + 1].ops && Destination(run[k + 1].ops[p].pc) == run[i].ops[p].pc
  {
    hide Step, ServesAction, Run, Fold, UpsertLine;
    k, c := Decided(run, i, p);
    t := run[k].ops[p].pc.action.t;
  }

  lemma UpsertStep(s: State, p: Pid, c: Choice, s': State, t: ThreadId, request: Request)
    requires p in s.ops && s.ops[p].pc == Act(AppendUpsert(t, request)) && Step(s, p, c, s')
    requires UpsertLine(t, request, TableOf(s)).Some?
    requires Destination(s'.ops[p].pc).Done? && Destination(s'.ops[p].pc).response.Summary?
    ensures TableOf(s') == TableOf(Logged(s, UpsertLine(t, request, TableOf(s)).value))
  {
    TailDestinations();
    hide Destination, Fold, EndThreadMeta, UpsertLine;
  }

  /** `get_messages` answers with the whole transcript of a live thread between two changes, and nothing for another. */
  lemma TranscriptExact(run: seq<State>, i: nat, p: Pid, t: ThreadId, ms: seq<Message>) returns (k: nat)
    requires Run(run) && i < |run| && Answered(run[i], p, GetMessages(t), Transcript(ms))
    ensures k < i && p in run[k].ops
    ensures if t in TableOf(run[k]) then ms == FilesOf(run[k], t) == Rows(run[k].history.settled, t) else ms == []
  {
    hide Step;
    var k', c := Decided(run, i, p);
    k := k';
    RunSafe(run, k);
    assert run[k].ops[p].pc.action in {CheckLiveForRead(t), ReadTranscript(t)};
    hide ServesAction, Run;
    HolderView(run[k], p, t);
    hide Safe, Fold;
  }

  /**
   * When the statistics line of an append fails, the next listing measures the thread again
   * exactly if its count was still unknown.  Otherwise it goes on reporting one message too few.
   */
  lemma FailedStatisticsLine(s: State, p: Pid, t: ThreadId, m: Message)
    requires Safe(s) && p in s.ops && s.ops[p].pc == Act(LogAppend(t, m))
    ensures var after := DoLogAppend(s, Choice(false, []), t, m).state;
            && t in TableOf(after)
            && (t in Unmeasured(TableOf(after)) <==> TableOf(s)[t].messageCount.None?)
            && (TableOf(s)[t].messageCount.Some? && t !in s.history.lost ==>
                  TableOf(after)[t].messageCount == Some(|FilesOf(after, t)| - 1) && t in after.history.lost)
  {
    hide Safe, Fold;
    HolderView(s, p, t);
  }

  /** No listing repairs a thread whose count is known, wrong or not. */
  lemma RepairLeavesKnown(s: State, a: Action, c: Choice, t: ThreadId)
    requires a.FoldLog? || a.RepairStats?
    requires t in TableOf(s) && t !in Unmeasured(TableOf(s))
    ensures var after := Perform(s, a, c).state;
            t in TableOf(after) && TableOf(after)[t] == TableOf(s)[t] && (t in after.history.lost <==> t in s.history.lost)
  {
    hide Fold;
    if a.RepairStats? && a.t in Unmeasured(TableOf(s)) {
      LoggedOthers(s, Stats(a.t, |FilesOf(s, a.t)|, LastAt(TableOf(s)[a.t], FilesOf(s, a.t))), t);
    }
  }

  // ---------- what the updates store ----------

  predicate Upserts(request: Request) {
    request.EnsureThread? || request.UpdateThreadTitle? || request.UpdateThreadLabels?
  }

  /** The step in which an upsert that answered wrote its line. */
  lemma UpsertApplied(run: seq<State>, i: nat, p: Pid, request: Request, count: nat, last: string) returns (k: nat)
    requires Run(run) && i < |run| && Upserts(request) && Answered(run[i], p, request, Summary(count, last))
    ensures k < i && p in run[k].ops
    ensures var line := UpsertLine(request.threadId, request, TableOf(run[k]));
            line.Some? && TableOf(run[k + 1]) == ApplyEntry(TableOf(run[k]), line.value)
  {
    hide Step, Run, Safe, Fold, UpsertLine, ApplyEntry;
    var k', c := Decided(run, i, p);
    k := k';
    var s, t := run[k], request.threadId;
    assert s.ops[p].pc == Act(AppendUpsert(t, request));
    UpsertStep(s, p, c, run[k + 1], t, request);
    FoldAppend(s.disk.log, UpsertLine(t, request, TableOf(s)).value);
  }

  /** A change of title that answered changed the title in the table, and nothing else. */
  lemma TitleUpdated(run: seq<State>, i: nat, p: Pid, t: ThreadId, title: string, at: string, count: nat, last: string) returns (k: nat)
    requires Run(run) && i < |run| && Answered(run[i], p, UpdateThreadTitle(t, title, at), Summary(count, last))
    ensures k < i && p in run[k].ops && t in TableOf(run[k])
    ensures TableOf(run[k + 1]) == TableOf(run[k])[t := TableOf(run[k])[t].(title := title)]
  {
    hide Run, Fold, NormalizedLabels, Answered;
    k := UpsertApplied(run, i, p, UpdateThreadTitle(t, title, at), count, last);
    FoldedLabelsCanonical(run[k].disk.log, t);
  }

  /** A change of labels that answered stored the normal form of the labels, and nothing else. */
  lemma LabelsUpdated(run: seq<State>, i: nat, p: Pid, t: ThreadId, labels: seq<string>, at: string, count: nat, last: string) returns (k: nat)
    requires Run(run) && i < |run| && Answered(run[i], p, UpdateThreadLabels(t, labels, at), Summary(count, last))
    ensures k < i && p in run[k].ops && t in TableOf(run[k])
    ensures TableOf(run[k + 1]) == TableOf(run[k])[t := TableOf(run[k])[t].(labels := NormalizedLabels(labels))]
  {
    hide Run, Fold, NormalizedLabels, Answered;
    k := UpsertApplied(run, i, p, UpdateThreadLabels(t, labels, at), count, last);
    NormalizedLabelsMeaning(labels);
    NormalizedLabelsFixed(NormalizedLabels(labels));
  }

  /** A thread that was ensured has the title it was given, and the labels, parent and personality if it was given any; other threads stay. */
  lemma ThreadEnsured(run: seq<State>, i: nat, p: Pid, t: ThreadId, title: string, createdAt: string, parent: Option<ThreadId>,
                      labels: Option<seq<string>>, personality: Option<string>, count: nat, last: string) returns (k: nat)
    requires Run(run) && i < |run|
    requires Answered(run[i], p, EnsureThread(t, title, createdAt, parent, labels, personality), Summary(count, last))
    ensures k < i && p in run[k].ops && t in TableOf(run[k + 1])
    ensures TableOf(run[k + 1]) == TableOf(run[k])[t := TableOf(run[k + 1])[t]]
    ensures var before, e := TableOf(run[k]), TableOf(run[k + 1])[t];
            && e.title == title && e.createdAt == (if t in before then before[t].createdAt else createdAt)
            && e.labels == (if labels.Some? then NormalizedLabels(labels.value) else if t in before then before[t].labels else InferLabels(t))
            && e.parentThreadId == (if parent.Some? then parent else if t in before then before[t].parentThreadId else None)
            && e.personalityId == (if personality.Some? then personality else if t in before then before[t].personalityId else None)
  {
    hide Run, Fold, NormalizedLabels, Answered, InferLabels;
    k := UpsertApplied(run, i, p, EnsureThread(t, title, createdAt, parent, labels, personality), count, last);
    if labels.Some? {
      NormalizedLabelsMeaning(labels.value);
      NormalizedLabelsFixed(NormalizedLabels(labels.value));
    }
  }

  lemma {:induction false} PatchedMeaning(rows: seq<Message>, id: MessageId, metadata: Option<string>)
    requires Lookup(rows, id).Some?
    ensures var n := CutPoint(rows, id);
            && n < |rows| && rows[n].id == id && (forall x :: 0 <= x < n ==> rows[x].id != id)
            && Patched(rows, id, metadata) == rows[n := rows[n].(extraMetadata := GetOr(metadata, rows[n].extraMetadata))]
            && Lookup(Patched(rows, id, metadata), id) == Some(Patched(rows, id, metadata)[n])
  {
    CutPointFirst(rows, id);
    LookupFindsFirst(rows, id);
    PatchedAt(rows, id, metadata);
    LookupFindsFirst(Patched(rows, id, metadata), id);
  }

  lemma {:induction false} PatchedAt(rows: seq<Message>, id: MessageId, metadata: Option<string>)
    requires CutPoint(rows, id) < |rows|
    ensures var n := CutPoint(rows, id);
            Patched(rows, id, metadata) == rows[n := rows[n].(extraMetadata := GetOr(metadata, rows[n].extraMetadata))]
  {
    if rows[0].id != id {
      PatchedAt(rows[1..], id, metadata);
    }
  }

  /** An update that answered replaced the metadata of the first row with the id, if it was given any, and answered with that row. */
  lemma MessageUpdated(run: seq<State>, i: nat, p: Pid, t: ThreadId, id: MessageId, metadata: Option<string>, stored: Message)
    returns (k: nat, n: nat)
    requires Run(run) && i < |run| && Answered(run[i], p, UpdateMessage(t, id, metadata), Updated(stored))
    ensures k < i && p in run[k].ops
    ensures var rows := FilesOf(run[k], t);
            && n < |rows| && rows[n].id == id && (forall x :: 0 <= x < n ==> rows[x].id != id)
            && stored == rows[n].(extraMetadata := GetOr(metadata, rows[n].extraMetadata))
            && FilesOf(run[k + 1], t) == rows[n := stored]
  {
    hide Run, Fold, Lookup, Patched, CutPoint, Step;
    var k', c := Decided(run, i, p);
    k := k';
    n := CutPoint(FilesOf(run[k], t), id);
    assert run[k].ops[p].pc == Act(PatchRow(t, id, metadata));
    PatchStep(run[k], p, c, run[k + 1], t, id, metadata, stored);
  }

  lemma PatchStep(s: State, p: Pid, c: Choice, s': State, t: ThreadId, id: MessageId, metadata: Option<string>, stored: Message)
    requires p in s.ops && s.ops[p].pc == Act(PatchRow(t, id, metadata)) && Step(s, p, c, s')
    requires Destination(s'.ops[p].pc) == Done(Updated(stored))
    ensures var n, rows := CutPoint(FilesOf(s, t), id), FilesOf(s, t);
            && n < |rows| && rows[n].id == id && (forall x :: 0 <= x < n ==> rows[x].id != id)
            && stored == rows[n].(extraMetadata := GetOr(metadata, rows[n].extraMetadata))
            && FilesOf(s', t) == rows[n := stored]
  {
    TailDestinations();
    hide Destination, EndThread, Lookup, Patched, CutPoint;
    if Lookup(FilesOf(s, t), id).Some? {
      PatchedMeaning(FilesOf(s, t), id, metadata);
    }
  }
}
