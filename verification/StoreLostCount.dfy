/** A run after which listings go on reporting one message too few, although no call is in progress. */
module StoreLostCount {
  import opened Options
  import opened ConversationTypes
  import opened ThreadLog
  import opened StoreProtocol
  import opened StoreLockOrder
  import opened StoreSafety
  import opened StoreRuns
  import opened StoreHistory

  // ---------- one call after the other ----------

  ghost predicate Reachable(s: State) {
    exists run :: Run(run) && run[|run| - 1] == s
  }

  lemma ReachInitial()
    ensures Reachable(INITIAL)
  {
    assert Run([INITIAL]);
  }

  lemma ReachNext(s: State, s': State)
    requires Reachable(s) && Next(s, s')
    ensures Reachable(s')
  {
    var run :| Run(run) && run[|run| - 1] == s;
    var longer := run + [s'];
    forall i: nat | i + 1 < |longer| ensures Goes(longer, i) {
      if i + 1 < |run| {
        assert Goes(run, i);
      }
    }
    assert Run(longer) && longer[|longer| - 1] == s';
  }

  lemma ReachSafe(s: State)
    requires Reachable(s)
    ensures Safe(s)
  {
    hide Safe;
    var run :| Run(run) && run[|run| - 1] == s;
    RunSafe(run, |run| - 1);
  }

  ghost predicate Idle(s: State) {
    forall q :: q in s.ops ==> s.ops[q].pc.Done?
  }

  /** No call but this one has work left. */
  ghost predicate Alone(s: State, p: Pid) {
    p in s.ops && forall q :: q in s.ops && q != p ==> s.ops[q].pc.Done?
  }

  predicate SameStore(s: State, s': State) {
    s'.disk == s.disk && s'.cache == s.cache && s'.journal == s.journal && s'.history == s.history
  }

  lemma OnlyItSteps(s: State, p: Pid) returns (c: Choice, s': State)
    requires Reachable(s) && Alone(s, p) && !s.ops[p].pc.Done?
    ensures Step(s, p, c, s') && Reachable(s')
  {
    hide Safe, LockInv, Step, Run, CanStep;
    ReachSafe(s);
    SafeParts(s);
    var q := NoDeadlock(s, p);
    c, s' := ReadyHasStep(s, p);
    ReachNext(s, s');
  }

  /** A call that is alone gets past its lock steps. */
  lemma {:induction false} Proceed(s: State, p: Pid) returns (s': State)
    requires Reachable(s) && Alone(s, p)
    ensures Reachable(s') && Alone(s', p) && SameStore(s, s') && s'.ops.Keys == s.ops.Keys
    ensures s'.ops[p].pc == Destination(s.ops[p].pc) && s'.ops[p].request == s.ops[p].request
    decreases s.ops[p].pc
  {
    hide Reachable, Perform, CanStep, Stepped;
    if s.ops[p].pc.Act? || s.ops[p].pc.Done? {
      s' := s;
    } else {
      var c, next := OnlyItSteps(s, p);
      assert next.ops[p].pc == s.ops[p].pc.next;
      s' := Proceed(next, p);
    }
  }

  /** It performs its action and goes on to the next, or to its reply. */
  lemma Acts(s: State, p: Pid, c: Choice) returns (s': State)
    requires Reachable(s) && Alone(s, p) && s.ops[p].pc.Act? && Admissible(s, s.ops[p].pc.action, c)
    ensures var o := Perform(s, s.ops[p].pc.action, c);
            Reachable(s') && Alone(s', p) && SameStore(o.state, s') && s'.ops.Keys == s.ops.Keys
            && s'.ops[p].pc == Destination(o.pc) && s'.ops[p].request == s.ops[p].request
  {
    hide Reachable, Perform, Admissible, Destination;
    var o := Perform(s, s.ops[p].pc.action, c);
    var next := o.state.(ops := s.ops[p := s.ops[p].(pc := o.pc)]);
    assert Step(s, p, c, next);
    ReachNext(s, next);
    s' := Proceed(next, p);
  }

  /** A call made when all others are done comes to its first action. */
  lemma Calls(s: State, p: Pid, request: Request) returns (s': State)
    requires Reachable(s) && Idle(s) && p !in s.ops
    ensures Reachable(s') && Alone(s', p) && SameStore(s, s') && s'.ops.Keys == s.ops.Keys + {p}
    ensures s'.ops[p].pc == Act(FirstAction(request)) && s'.ops[p].request == request
  {
    hide Reachable, Start, FirstAction, Destination;
    var next := s.(ops := s.ops[p := Op(request, Start(request), None)]);
    assert Spawn(s, p, request, next);
    ReachNext(s, next);
    StartDestination(request);
    s' := Proceed(next, p);
  }

  // ---------- the run ----------

  /** The store holds one thread, with a cold index. */
  ghost predicate Holds(s: State, t: ThreadId, count: Option<nat>, rows: seq<Message>) {
    && TableOf(s).Keys == {t} && TableOf(s)[t].messageCount == count
    && (count.Some? <==> TableOf(s)[t].lastMessageAt.Some?)
    && FilesOf(s, t) == rows && s.cache.None? && s.journal.None?
  }

  lemma Created(t: ThreadId, title: string, at: string) returns (s: State)
    ensures Reachable(s) && Idle(s) && s.ops.Keys == {1} && Holds(s, t, None, [])
  {
    hide Reachable, Destination, EndThreadMeta;
    ReachInitial();
    var request := EnsureThread(t, title, at, None, None, None);
    var called := Calls(INITIAL, 1, request);
    assert UpsertLine(t, request, TableOf(called)).Some?;
    TailDestinations();
    FoldAppend([], UpsertLine(t, request, TableOf(called)).value);
    s := Acts(called, 1, Choice(true, []));
  }

  lemma Listing(s: State, t: ThreadId) returns (s': State)
    requires Reachable(s) && Idle(s) && s.ops.Keys == {1} && Holds(s, t, None, [])
    ensures Reachable(s') && Alone(s', 2) && s'.ops.Keys == {1, 2} && Holds(s', t, None, [])
    ensures s'.ops[2].pc == Act(RepairStats(t, []))
  {
    hide Reachable, Destination, Fold, RepairLoop, FirstAction;
    LoopDestinations([t], map[]);
    StepDestinations();
    assert Unmeasured(TableOf(s)) == {t};
    var s1 := Calls(s, 2, ListThreads);
    FirstOfListing();
    assert [t][1..] == [];
    s' := Acts(s1, 2, Choice(true, [t]));
  }

  lemma FirstOfListing()
    ensures FirstAction(ListThreads) == FoldLog
  {
  }

  lemma Repaired(s: State, t: ThreadId) returns (s': State)
    requires Reachable(s) && Alone(s, 2) && s.ops.Keys == {1, 2} && Holds(s, t, None, []) && s.ops[2].pc == Act(RepairStats(t, []))
    ensures Reachable(s') && Alone(s', 2) && s'.ops.Keys == {1, 2} && Holds(s', t, Some(0), [])
    ensures s'.ops[2].pc == Act(FoldLog)
  {
    hide Reachable, Destination, Fold, RepairLoop;
    LoopDestinations([], map[]);
    StepDestinations();
    assert t in Unmeasured(TableOf(s));
    FoldAppend(s.disk.log, Stats(t, |FilesOf(s, t)|, LastAt(TableOf(s)[t], FilesOf(s, t))));
    s' := Acts(s, 2, Choice(true, []));
  }

  lemma Measured(s: State, t: ThreadId) returns (s': State)
    requires Reachable(s) && Idle(s) && s.ops.Keys == {1} && Holds(s, t, None, [])
    ensures Reachable(s') && Idle(s') && s'.ops.Keys == {1, 2} && Holds(s', t, Some(0), [])
  {
    hide Reachable, Destination, Fold, RepairLoop;
    TailDestinations();
    StepDestinations();
    var s1 := Listing(s, t);
    var s2 := Repaired(s1, t);
    assert Unmeasured(TableOf(s2)) == {};
    s' := Acts(s2, 2, Choice(true, []));
  }

  lemma Checked(s: State, t: ThreadId, m: Message) returns (s': State)
    requires Reachable(s) && Idle(s) && s.ops.Keys == {1, 2} && Holds(s, t, Some(0), [])
    ensures Reachable(s') && Alone(s', 3) && s'.ops.Keys == {1, 2, 3} && Holds(s', t, Some(0), [])
    ensures s'.ops[3].pc == Act(FindDuplicate(t, m))
  {
    hide Reachable, Destination, Fold;
    StepDestinations();
    ActStays();
    var s1 := Calls(s, 3, AppendMessage(t, m));
    assert s1.ops[3].pc == Act(CheckLiveForAppend(t, m));
    s' := Acts(s1, 3, Choice(true, []));
  }

  lemma NotThere(s: State, t: ThreadId, m: Message) returns (s': State)
    requires Reachable(s) && Alone(s, 3) && s.ops.Keys == {1, 2, 3} && Holds(s, t, Some(0), [])
    requires s.ops[3].pc == Act(FindDuplicate(t, m))
    ensures Reachable(s') && Alone(s', 3) && s'.ops.Keys == {1, 2, 3} && Holds(s', t, Some(0), [])
    ensures s'.ops[3].pc == Act(WriteRow(t, m))
  {
    hide Reachable, Destination, Fold;
    ActStays();
    s' := Acts(s, 3, Choice(true, []));
  }

  lemma Written(s: State, t: ThreadId, m: Message) returns (s': State)
    requires Reachable(s) && Alone(s, 3) && s.ops.Keys == {1, 2, 3} && Holds(s, t, Some(0), [])
    requires s.ops[3].pc == Act(WriteRow(t, m))
    ensures Reachable(s') && Alone(s', 3) && s'.ops.Keys == {1, 2, 3} && Holds(s', t, Some(0), [m])
    ensures s'.ops[3].pc == Act(RecordAppend(t, m))
  {
    hide Reachable, Destination, Fold;
    StepDestinations();
    assert FilesOf(s, t) == [] && [] + [m] == [m];
    s' := Acts(s, 3, Choice(true, []));
  }

  lemma ActStays()
    ensures forall a {:trigger Act(a)} :: Destination(Act(a)) == Act(a)
  {
  }

  lemma Indexed(s: State, t: ThreadId, m: Message) returns (s': State)
    requires Reachable(s) && Alone(s, 3) && s.ops.Keys == {1, 2, 3} && Holds(s, t, Some(0), [m])
    requires s.ops[3].pc == Act(RecordAppend(t, m))
    ensures Reachable(s') && Alone(s', 3) && s'.ops.Keys == {1, 2, 3} && Holds(s', t, Some(0), [m])
    ensures s'.ops[3].pc == Act(LogAppend(t, m))
  {
    hide Reachable, Destination, Fold;
    ActStays();
    var s1 := Acts(s, 3, Choice(true, []));
    s' := Acts(s1, 3, Choice(true, []));
  }

  /** The statistics line of the append fails, and the append with it. */
  lemma Failed(s: State, t: ThreadId, m: Message) returns (s': State)
    requires Reachable(s) && Alone(s, 3) && s.ops.Keys == {1, 2, 3} && Holds(s, t, Some(0), [m])
    requires s.ops[3].pc == Act(LogAppend(t, m))
    ensures Reachable(s') && Idle(s') && s'.ops.Keys == {1, 2, 3} && Holds(s', t, Some(0), [m])
  {
    hide Reachable, Destination, Fold;
    TailDestinations();
    s' := Acts(s, 3, Choice(false, []));
  }

  /**
   * With no call in progress but a listing made afterwards, the listing answers that the thread is
   * empty, while its transcript holds the message.
   */
  lemma ListingStaysWrong(t: ThreadId, title: string, at: string, m: Message) returns (run: seq<State>, table: Table)
    ensures Run(run)
    ensures var s := run[|run| - 1];
            && Idle(s) && FilesOf(s, t) == [m] && Answered(s, 4, ListThreads, Listed(table))
            && t in table && table[t].messageCount == Some(0)
  {
    hide Reachable, Holds;
    var created := Created(t, title, at);
    var measured := Measured(created, t);
    var checked := Checked(measured, t, m);
    var ready := NotThere(checked, t, m);
    var written := Written(ready, t, m);
    var indexed := Indexed(written, t, m);
    var failed := Failed(indexed, t, m);
    var s;
    s, table := ListedAgain(failed, t, m);
    run := RunTo(s);
  }

  lemma ListedAgain(s: State, t: ThreadId, m: Message) returns (s': State, table: Table)
    requires Reachable(s) && Idle(s) && s.ops.Keys == {1, 2, 3} && Holds(s, t, Some(0), [m])
    ensures Reachable(s') && Idle(s') && FilesOf(s', t) == [m] && Answered(s', 4, ListThreads, Listed(table))
    ensures t in table && table[t].messageCount == Some(0)
  {
    hide Reachable, Destination, Fold;
    TailDestinations();
    StepDestinations();
    assert Unmeasured(TableOf(s)) == {};
    var called := Calls(s, 4, ListThreads);
    s' := Acts(called, 4, Choice(true, []));
    table := TableOf(s);
  }

  lemma RunTo(s: State) returns (run: seq<State>)
    requires Reachable(s)
    ensures Run(run) && run[|run| - 1] == s
  {
    run :| Run(run) && run[|run| - 1] == s;
  }
}
