/**
 * What the store promises over whole runs: any number of calls, interleaved in any way, from
 * an empty workspace.
 */
module StoreRuns {
  import opened Options
  import opened ConversationTypes
  import opened ThreadLog
  import opened StoreProtocol
  import opened StoreLockOrder
  import opened StoreSafety

  ghost predicate Run(run: seq<State>) {
    |run| > 0 && run[0] == INITIAL && forall i: nat :: i + 1 < |run| ==> Goes(run, i)
  }

  /** One step of a run. */
  ghost predicate Goes(run: seq<State>, i: nat)
    requires i + 1 < |run|
  {
    Next(run[i], run[i + 1])
  }

  /** Every state of every run satisfies the invariant. */
  lemma {:induction false} RunSafe(run: seq<State>, i: nat)
    requires Run(run) && i < |run|
    ensures Safe(run[i])
  {
    hide Safe, Next;
    if i == 0 {
      InitialSafe();
    } else {
      RunSafe(run, i - 1);
      assert Goes(run, i - 1);
      NextSafe(run[i - 1], run[i]);
    }
  }

  // ---------- agreement of cache, files and statistics ----------

  /** Nobody holds the thread's mutex, and no deletion or purge is in progress. */
  ghost predicate Unlocked(s: State, t: ThreadId) {
    forall q :: q in s.ops ==> !HeldBy(s.ops[q].pc).write && !(HeldBy(s.ops[q].pc).thread && HeldBy(s.ops[q].pc).arc == Some(t))
  }

  lemma UnlockedQuiet(s: State, t: ThreadId)
    requires Safe(s) && Unlocked(s, t)
    ensures ThreadInv(ViewOf(s, t), None)
  {
    if s.locks.writer.Some? && s.locks.writer.value in s.ops {
      WriterPid(s, s.locks.writer.value);
    }
    forall q | q in s.ops ensures PinGoal(s.ops[q].pc, t).None? {
      if PinGoal(s.ops[q].pc, t).Some? {
        PinnedHolds(s, q, t);
      }
    }
  }

  lemma AgentRowsUnique(rows: seq<Message>)
    requires DeterministicIdsUnique(rows)
    ensures forall x, y :: 0 <= x < y < |rows| && "agent:" <= rows[x].id ==> rows[x].id != rows[y].id
  {
    assert DETERMINISTIC_MESSAGE_ID_PREFIX == "agent:";
  }

  /**
   * Whenever nobody works on a thread, the published index holds exactly the first occurrence
   * of every message id of its transcript, and nothing when the thread is not live.
   */
  lemma IndexMirrorsTranscript(run: seq<State>, i: nat, t: ThreadId)
    requires Run(run) && i < |run| && Unlocked(run[i], t)
    ensures run[i].cache.Some? ==> Mirrors(run[i].cache.value, t, FilesOf(run[i], t))
    ensures t !in TableOf(run[i]) ==> FilesOf(run[i], t) == []
    ensures var rows := FilesOf(run[i], t); forall x, y :: 0 <= x < y < |rows| && "agent:" <= rows[x].id ==> rows[x].id != rows[y].id
  {
    var s := run[i];
    RunSafe(run, i);
    UnlockedQuiet(s, t);
    AgentRowsUnique(FilesOf(s, t));
    if s.cache.Some? {
      CacheSettled(s);
      hide Safe, Fold;
      forall id ensures IndexGet(s.cache.value, t, id) == LookupDoc(FilesOf(s, t), id) {
        assert IndexGet(s.cache.value, t, id) == LookupDoc(Rows(s.history.settled, t), id);
      }
    }
  }

  /** The operation is between changing the files of the thread and bringing the index up to date. */
  ghost predicate Indexing(s: State, q: Pid, t: ThreadId) {
    q in s.ops && Goal(s.ops[q].pc).Some? &&
    var a := Goal(s.ops[q].pc).value;
    if a.DropIndex? then s.locks.writer == Some(q)
    else PinnedThread(a) == Some(t) && HeldBy(s.ops[q].pc).thread && HeldBy(s.ops[q].pc).arc == Some(t)
         && (a.RecordAppend? || a.IndexAppend? || a.RebuildIndex? || a.EvictLock? || a.DropThreadDocs?)
  }

  /** A thread whose files are ahead of the index: which actions are pending then, and that an append is ahead by one row. */
  lemma UnsettledPin(v: View, g: Option<Action>)
    requires ThreadInv(v, g) && v.rows != v.settled
    ensures g.Some? && !g.value.DropIndex?
    ensures g.value.RecordAppend? || g.value.IndexAppend? || g.value.RebuildIndex? || g.value.EvictLock? || g.value.DropThreadDocs?
    ensures g.value.RecordAppend? || g.value.IndexAppend? ==> v.rows == v.settled + [g.value.m]
  {
  }

  lemma BusyHolder(s: State, t: ThreadId) returns (q: Pid)
    requires Safe(s) && !Wiping(s) && Rows(s.history.settled, t) != FilesOf(s, t)
    ensures Indexing(s, q, t)
    ensures var a := Goal(s.ops[q].pc).value;
            a.RecordAppend? || a.IndexAppend? ==> FilesOf(s, t) == Rows(s.history.settled, t) + [a.m]
  {
    SafeThreads(s);
    SafeParts(s);
    assert ViewOf(s, t).rows == FilesOf(s, t) && ViewOf(s, t).settled == Rows(s.history.settled, t);
    hide Safe, ViewOf, Goal, HeldBy, LockInv, ThreadInv, FilesOf, Rows;
    if forall q :: q in s.ops ==> PinGoal(s.ops[q].pc, t).None? {
      UnsettledPin(ViewOf(s, t), None);
    }
    q :| q in s.ops && PinGoal(s.ops[q].pc, t).Some?;
    PinnedHolds(s, q, t);
    UnsettledPin(ViewOf(s, t), PinGoal(s.ops[q].pc, t));
    hide PinnedThread;
  }

  /**
   * At every other moment the index differs from the transcript only by what an operation still
   * holding the thread's lock is about to index; for an append, by the last row.
   */
  lemma IndexLag(run: seq<State>, i: nat, t: ThreadId) returns (q: Pid)
    requires Run(run) && i < |run| && run[i].cache.Some?
    ensures Mirrors(run[i].cache.value, t, FilesOf(run[i], t)) || Indexing(run[i], q, t)
    ensures Mirrors(run[i].cache.value, t, FilesOf(run[i], t))
            || (var a, rows := Goal(run[i].ops[q].pc).value, FilesOf(run[i], t);
                a.RecordAppend? || a.IndexAppend? ==>
                  rows != [] && rows[|rows| - 1] == a.m && Mirrors(run[i].cache.value, t, rows[..|rows| - 1]))
  {
    var s := run[i];
    RunSafe(run, i);
    CacheSettled(s);
    var ix, settled := s.cache.value, Rows(s.history.settled, t);
    assert Mirrors(ix, t, settled) by {
      hide Safe, Fold, LookupDoc;
      forall id ensures IndexGet(ix, t, id) == LookupDoc(settled, id) {
      }
    }
    q := 0;
    if settled == FilesOf(s, t) {
    } else if Wiping(s) {
      q := s.locks.writer.value;
    } else {
      q := BusyHolder(s, t);
      hide Safe, Mirrors, Goal;
      var a := Goal(s.ops[q].pc).value;
      assert a.RecordAppend? || a.IndexAppend? ==> FilesOf(s, t)[..|FilesOf(s, t)| - 1] == settled;
    }
  }

  /** Folded statistics of a thread nobody works on: unknown, or the transcript's own, unless an append of them failed. */
  lemma StatisticsAgree(run: seq<State>, i: nat, t: ThreadId)
    requires Run(run) && i < |run| && Unlocked(run[i], t) && t in TableOf(run[i]) && t !in run[i].history.lost
    ensures StatsAgree(TableOf(run[i])[t], FilesOf(run[i], t))
  {
    RunSafe(run, i);
    UnlockedQuiet(run[i], t);
  }

  /** In this step a statistics line of the thread cannot be written. */
  ghost predicate StatisticsFail(run: seq<State>, k: nat, p: Pid, t: ThreadId) {
    && k + 1 < |run| && p in run[k].ops && run[k].ops[p].pc.Act?
    && (run[k].ops[p].pc.action.LogAppend? || run[k].ops[p].pc.action.LogStats?) && run[k].ops[p].pc.action.t == t
    && exists c: Choice :: !c.ok && Step(run[k], p, c, run[k + 1])
  }

  lemma LostAction(s: State, a: Action, c: Choice, t: ThreadId)
    requires t in Perform(s, a, c).state.history.lost && t !in s.history.lost
    ensures !c.ok && (a.LogAppend? || a.LogStats?) && a.t == t
  {
    hide Fold, FilesOf;
  }

  lemma LostStep(s: State, p: Pid, c: Choice, s': State, t: ThreadId)
    requires Step(s, p, c, s') && t in s'.history.lost && t !in s.history.lost
    ensures p in s.ops && s.ops[p].pc.Act? && !c.ok
    ensures var a := s.ops[p].pc.action; (a.LogAppend? || a.LogStats?) && a.t == t
  {
    hide Perform, CanStep, Stepped;
    if s.ops[p].pc.Act? {
      LostAction(s, s.ops[p].pc.action, c, t);
    }
  }

  /** Statistics are lost only by such a step. */
  lemma {:induction false} LostSince(run: seq<State>, i: nat, t: ThreadId) returns (k: nat, p: Pid)
    requires Run(run) && i < |run| && t in run[i].history.lost
    ensures k < i && StatisticsFail(run, k, p, t)
  {
    hide Step;
    if t in run[i - 1].history.lost {
      k, p := LostSince(run, i - 1, t);
    } else {
      assert Goes(run, i - 1);
      var q, c :| Step(run[i - 1], q, c, run[i]);
      LostStep(run[i - 1], q, c, run[i], t);
      k, p := i - 1, q;
    }
  }

  /** So in a run in which no statistics line of the thread failed, its known statistics are exact whenever nobody works on it. */
  lemma StatisticsExact(run: seq<State>, i: nat, t: ThreadId)
    requires Run(run) && i < |run| && Unlocked(run[i], t) && t in TableOf(run[i])
    requires forall k: nat, p :: k < i ==> !StatisticsFail(run, k, p, t)
    ensures StatsAgree(TableOf(run[i])[t], FilesOf(run[i], t))
  {
    hide Run, StatisticsFail, Unlocked, StatsAgree, Fold;
    if t in run[i].history.lost {
      var k, p := LostSince(run, i, t);
    }
    StatisticsAgree(run, i, t);
  }

  // ---------- progress ----------

  /** In every state of every run, some unfinished operation can take a step. */
  lemma DeadlockFree(run: seq<State>, i: nat, p: Pid) returns (q: Pid, c: Choice, s': State)
    requires Run(run) && i < |run| && Unfinished(run[i], p)
    ensures Unfinished(run[i], q) && Step(run[i], q, c, s')
  {
    RunSafe(run, i);
    SafeParts(run[i]);
    hide Safe, LockInv, Step;
    q := NoDeadlock(run[i], p);
    c, s' := ReadyHasStep(run[i], q);
  }

  /** Operations that have fetched a thread's mutex share one object, whatever was pruned or evicted. */
  lemma SharedMutex(run: seq<State>, i: nat, p: Pid, q: Pid, t: ThreadId)
    requires Run(run) && i < |run| && p in run[i].ops && q in run[i].ops
    requires HeldBy(run[i].ops[p].pc).arc == Some(t) && HeldBy(run[i].ops[q].pc).arc == Some(t)
    ensures run[i].ops[p].arc == run[i].ops[q].arc && run[i].ops[p].arc.Some?
    ensures HeldBy(run[i].ops[p].pc).thread && HeldBy(run[i].ops[q].pc).thread ==> p == q
  {
    RunSafe(run, i);
    SafeParts(run[i]);
    hide Safe;
    OneMutexPerThread(run[i], p, q, t);
    assert OpLocks(run[i], p);
    if HeldBy(run[i].ops[p].pc).thread && HeldBy(run[i].ops[q].pc).thread {
      OneHolderPerThread(run[i], p, q, t);
    }
  }
}
