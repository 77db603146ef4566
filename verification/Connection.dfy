/**
 * The connection cache of one database path: any number of callers opening, recovering and
 * invalidating the connection at once.  Each step is one critical section on the cache, on the
 * breaker map, on a breaker or on the path's init lock, or one step of opening the database.
 */
module Connection {
  import opened ConnectionBreaker
  import opened Options

  type Pid = nat
  type ConnId = nat
  type BreakerId = nat

  datatype Call = GetOrInit | Recover | Invalidate

  /** Where a call stands. */
  datatype Pc =
    | FastBreaker                                  // is the breaker open?
    | FastCache                                    // is a connection cached?
    | AwaitInit                                    // take the init lock
    | SlowBreaker                                  // the breaker again, under the init lock
    | SlowCache                                    // the cache again
    | DropCached                                   // recovery: forget the connection
    | DropBreaker                                  // recovery: forget the breaker
    | Quarantining                                 // recovery: move the damaged files away
    | Opening                                      // open and initialise the database
    | Caching                                      // publish the new connection
    | FetchingBreaker(won: Option<ConnId>)         // get or create the breaker
    | Recording(won: Option<ConnId>, b: BreakerId) // record the outcome on it
    | Leaving(result: Option<ConnId>)              // free the init lock
    | ForgettingConnection                         // invalidation, without the init lock
    | ForgettingBreaker
    | Finished(result: Option<ConnId>)

  datatype Op = Op(call: Call, pc: Pc)

  /** `streak` and `lastFailure` are auxiliary: failed initialisations recorded on the current breaker since the last success, recovery or invalidation. */
  datatype State = State(
    cached: Option<ConnId>,
    breaker: Option<BreakerId>,
    breakers: map<BreakerId, Breaker>,
    initLock: Option<Pid>,
    nextId: nat,
    now: int,
    ops: map<Pid, Op>,
    streak: nat,
    lastFailure: int
  )

  /** A call between taking and freeing the init lock. */
  predicate InSection(pc: Pc) {
    pc.SlowBreaker? || pc.SlowCache? || pc.DropCached? || pc.DropBreaker? || pc.Quarantining? || pc.Opening?
    || pc.Caching? || pc.FetchingBreaker? || pc.Recording? || pc.Leaving?
  }

  function At(s: State, p: Pid, pc: Pc): State
    requires p in s.ops
  {
    s.(ops := s.ops[p := s.ops[p].(pc := pc)])
  }

  predicate BreakerOpen(s: State) {
    s.breaker.Some? && s.breaker.value in s.breakers && IsOpen(s.breakers[s.breaker.value], s.now)
  }

  function Started(call: Call): Pc {
    match call
    case GetOrInit => FastBreaker
    case Recover => AwaitInit
    case Invalidate => ForgettingConnection
  }

  /** A failure counts towards the streak when it lands on the current breaker. */
  function FailureRecorded(s: State, b: BreakerId): State
    requires b in s.breakers
  {
    var hit := s.(breakers := s.breakers[b := AfterFailure(s.breakers[b], s.now)]);
    if s.breaker == Some(b) then hit.(streak := s.streak + 1, lastFailure := s.now) else hit
  }

  function SuccessRecorded(s: State, b: BreakerId): State {
    var hit := s.(breakers := s.breakers[b := CLOSED]);
    if s.breaker == Some(b) then hit.(streak := 0) else hit
  }

  /** One step of a call; `ok` is the outcome of opening or quarantining. */
  ghost predicate Step(s: State, p: Pid, ok: bool, s': State) {
    p in s.ops &&
    match s.ops[p].pc
    case FastBreaker => s' == At(s, p, if BreakerOpen(s) then Finished(None) else FastCache)
    case FastCache => s' == At(s, p, if s.cached.Some? then Finished(s.cached) else AwaitInit)
    case AwaitInit =>
      s.initLock.None? && s' == At(s, p, if s.ops[p].call.Recover? then DropCached else SlowBreaker).(initLock := Some(p))
    case SlowBreaker => s' == At(s, p, if BreakerOpen(s) then Leaving(None) else SlowCache)
    case SlowCache => s' == At(s, p, if s.cached.Some? then Leaving(s.cached) else Opening)
    case DropCached => s' == At(s, p, DropBreaker).(cached := None)
    case DropBreaker => s' == At(s, p, Quarantining).(breaker := None, streak := 0)
    case Quarantining => s' == At(s, p, if ok then Opening else Leaving(None))
    case Opening =>
      s' == At(s, p, if ok then Caching else if s.ops[p].call.Recover? then Leaving(None) else FetchingBreaker(None))
    case Caching => s' == At(s, p, FetchingBreaker(Some(s.nextId))).(cached := Some(s.nextId), nextId := s.nextId + 1)
    case FetchingBreaker(won) =>
      if s.breaker.Some? then s' == At(s, p, Recording(won, s.breaker.value))
      else s' == At(s, p, Recording(won, s.nextId))
                 .(breaker := Some(s.nextId), breakers := s.breakers[s.nextId := CLOSED], nextId := s.nextId + 1)
    case Recording(won, b) =>
      b in s.breakers
      && s' == At(if won.Some? then SuccessRecorded(s, b) else FailureRecorded(s, b), p, Leaving(won))
    case Leaving(result) => s' == At(s, p, Finished(result)).(initLock := None)
    case ForgettingConnection => s' == At(s, p, ForgettingBreaker).(cached := None)
    case ForgettingBreaker => s' == At(s, p, Finished(None)).(breaker := None, streak := 0)
    case Finished(_) => false
  }

  ghost predicate Spawn(s: State, p: Pid, call: Call, s': State) {
    p !in s.ops && s' == s.(ops := s.ops[p := Op(call, Started(call))])
  }

  ghost predicate Tick(s: State, s': State) {
    s.now <= s'.now && s' == s.(now := s'.now)
  }

  ghost predicate Next(s: State, s': State) {
    || Tick(s, s')
    || (exists p, call :: Spawn(s, p, call, s'))
    || (exists p, ok :: Step(s, p, ok, s'))
  }

  const INITIAL := State(None, None, map[], None, 0, 0, map[], 0, 0)

  // ---------- what every step keeps ----------

  /** The breaker in the map agrees with the streak of failures recorded on it. */
  ghost predicate BreakerAgrees(s: State) {
    if s.breaker.None? then s.streak == 0
    else
      s.breaker.value in s.breakers && var b := s.breakers[s.breaker.value];
      && b.consecutiveFailures == (if s.streak < U32_MAX then s.streak else U32_MAX)
      && b.tripped == (s.streak >= CB_THRESHOLD)
      && (b.tripped ==> b.lastTrip == Some(s.lastFailure))
  }

  /** Three failures or more, the latest within the cooldown. */
  predicate Cooling(s: State) {
    s.streak >= CB_THRESHOLD && s.now - s.lastFailure < CB_COOLDOWN
  }

  /** What holds while a call is in the section of the init lock. */
  ghost predicate SectionOk(s: State, pc: Pc) {
    match pc
    case SlowCache => !Cooling(s)
    case DropBreaker => s.cached.None?
    case Quarantining => s.cached.None?
    case Opening => s.cached.None?
    case Caching => s.cached.None?
    case FetchingBreaker(won) => won.None? ==> s.cached.None?
    case Recording(won, b) => b in s.breakers && s.breaker in {None, Some(b)} && (won.None? ==> s.cached.None?)
    case _ => true
  }

  /** A connection is cached while the current breaker is tripped only until the success is recorded on it. */
  predicate AboutToReset(pc: Pc) {
    (pc.FetchingBreaker? || pc.Recording?) && pc.won.Some?
  }

  ghost predicate Healthy(s: State) {
    s.cached.Some? && s.streak >= CB_THRESHOLD ==>
      s.initLock.Some? && s.initLock.value in s.ops && AboutToReset(s.ops[s.initLock.value].pc)
  }

  ghost predicate Sections(s: State) {
    && (forall p :: p in s.ops ==> (InSection(s.ops[p].pc) <==> s.initLock == Some(p)))
    && (s.initLock.Some? ==> s.initLock.value in s.ops)
  }

  ghost predicate Inv(s: State) {
    && BreakerAgrees(s) && Sections(s) && Healthy(s)
    && (forall p :: p in s.ops ==> SectionOk(s, s.ops[p].pc))
    && (forall b :: b in s.breakers ==> b < s.nextId)
  }

  lemma SectionsKept(s: State, p: Pid, ok: bool, s': State)
    requires Sections(s) && Step(s, p, ok, s')
    ensures Sections(s') && p in s.ops && p in s'.ops && s'.ops == s.ops[p := s'.ops[p]]
    ensures forall q :: q in s.ops && InSection(s.ops[q].pc) && InSection(s.ops[p].pc) ==> q == p
    ensures InSection(s.ops[p].pc) ==> s.initLock == Some(p)
    ensures !InSection(s.ops[p].pc) ==> s.initLock != Some(p)
  {
  }

  lemma BreakerKept(s: State, p: Pid, ok: bool, s': State)
    requires BreakerAgrees(s) && Step(s, p, ok, s') && SectionOk(s, s.ops[p].pc)
    requires forall b :: b in s.breakers ==> b < s.nextId
    ensures BreakerAgrees(s')
    ensures forall b :: b in s'.breakers ==> b < s'.nextId
  {
    hide IsOpen;
  }

  /** A step inside the section. */
  lemma SectionStep(s: State, p: Pid, ok: bool, s': State)
    requires Step(s, p, ok, s') && InSection(s.ops[p].pc) && s.initLock == Some(p)
    requires SectionOk(s, s.ops[p].pc) && BreakerAgrees(s) && Healthy(s)
    ensures SectionOk(s', s'.ops[p].pc) && Healthy(s')
  {
  }

  /** A step outside it only empties the cache or the breaker map, or takes the lock. */
  lemma OutsideStep(s: State, p: Pid, ok: bool, s': State)
    requires Step(s, p, ok, s') && !InSection(s.ops[p].pc) && s.initLock != Some(p) && Healthy(s)
    ensures s'.cached in {None, s.cached} && s'.breaker in {None, s.breaker} && s'.breakers == s.breakers && s'.now == s.now
    ensures s'.streak in {0, s.streak} && s'.lastFailure == s.lastFailure
    ensures SectionOk(s', s'.ops[p].pc) && Healthy(s')
  {
  }

  /** So the section's holder is not disturbed by the others. */
  lemma OthersKeepOk(s: State, s': State, pc: Pc)
    requires SectionOk(s, pc)
    requires s'.cached in {None, s.cached} && s'.breaker in {None, s.breaker} && s'.breakers == s.breakers && s'.now == s.now
    requires s'.streak in {0, s.streak} && s'.lastFailure == s.lastFailure
    ensures SectionOk(s', pc)
  {
  }

  lemma OutsideOk(s: State, pc: Pc)
    requires !InSection(pc)
    ensures SectionOk(s, pc)
  {
  }

  lemma StepKeeps(s: State, p: Pid, ok: bool, s': State)
    requires Inv(s) && Step(s, p, ok, s')
    ensures Inv(s')
  {
    hide Step, SectionOk, BreakerAgrees, AboutToReset, InSection, Sections, Healthy;
    SectionsKept(s, p, ok, s');
    BreakerKept(s, p, ok, s');
    var inside := InSection(s.ops[p].pc);
    if inside {
      SectionStep(s, p, ok, s');
    } else {
      OutsideStep(s, p, ok, s');
    }
    forall q | q in s'.ops ensures SectionOk(s', s'.ops[q].pc) {
      if q == p {
      } else if inside {
        OutsideOk(s', s.ops[q].pc);
      } else {
        OthersKeepOk(s, s', s.ops[q].pc);
      }
    }
  }

  lemma TickKeeps(s: State, s': State)
    requires Inv(s) && Tick(s, s')
    ensures Inv(s')
  {
    forall q | q in s'.ops ensures SectionOk(s', s'.ops[q].pc) {
      assert SectionOk(s, s.ops[q].pc);
    }
  }

  lemma SpawnKeeps(s: State, p: Pid, call: Call, s': State)
    requires Inv(s) && Spawn(s, p, call, s')
    ensures Inv(s')
  {
    forall q | q in s'.ops ensures SectionOk(s', s'.ops[q].pc) {
      if q != p {
        assert SectionOk(s, s.ops[q].pc);
      }
    }
  }

  lemma NextKeeps(s: State, s': State)
    requires Inv(s) && Next(s, s')
    ensures Inv(s')
  {
    hide Inv, Tick, Spawn, Step;
    if Tick(s, s') {
      TickKeeps(s, s');
    } else if p, call :| Spawn(s, p, call, s') {
      SpawnKeeps(s, p, call, s');
    } else {
      var p, ok :| Step(s, p, ok, s');
      StepKeeps(s, p, ok, s');
    }
  }

  // ---------- whole runs ----------

  ghost predicate Run(run: seq<State>) {
    && run != [] && run[0] == INITIAL
    && (forall i: nat :: i + 1 < |run| ==> Goes(run, i))
  }

  /** One step of a run. */
  ghost predicate Goes(run: seq<State>, i: nat)
    requires i + 1 < |run|
  {
    Next(run[i], run[i + 1])
  }

  lemma InitialOk()
    ensures Inv(INITIAL)
  {
  }

  lemma {:induction false} RunKeeps(run: seq<State>, i: nat)
    requires Run(run) && i < |run|
    ensures Inv(run[i])
  {
    hide Inv, Next;
    if i == 0 {
      InitialOk();
    } else {
      RunKeeps(run, i - 1);
      assert Goes(run, i - 1);
      NextKeeps(run[i - 1], run[i]);
    }
  }

  /** At most one get-or-init or recovery section runs at a time. */
  lemma OneSection(run: seq<State>, i: nat, p: Pid, q: Pid)
    requires Run(run) && i < |run|
    requires p in run[i].ops && q in run[i].ops && InSection(run[i].ops[p].pc) && InSection(run[i].ops[q].pc)
    ensures p == q
  {
    RunKeeps(run, i);
  }

  /** Whenever the init lock is free, a cached connection means the breaker in the map is not tripped. */
  lemma CachedIsHealthy(run: seq<State>, i: nat)
    requires Run(run) && i < |run| && run[i].initLock.None? && run[i].cached.Some? && run[i].breaker.Some?
    ensures run[i].breaker.value in run[i].breakers && !run[i].breakers[run[i].breaker.value].tripped
  {
    RunKeeps(run, i);
  }

  // ---------- the cooldown ----------

  /** A failed initialisation is recorded. */
  ghost predicate Failing(s: State, s': State) {
    exists p :: p in s.ops && s.ops[p].pc.Recording? && s.ops[p].pc.won.None? && Step(s, p, true, s')
  }

  /** The breaker is forgotten, by an invalidation or a recovery, or a success is recorded on it. */
  ghost predicate Resetting(s: State, s': State) {
    exists p :: p in s.ops && Step(s, p, true, s') && Resets(s.ops[p].pc)
  }

  predicate Resets(pc: Pc) {
    pc.DropBreaker? || pc.ForgettingBreaker? || (pc.Recording? && pc.won.Some?)
  }

  ghost predicate NoReset(run: seq<State>, a: nat, m: nat) {
    m < |run| && forall i: nat :: a <= i < m ==> Calm(run, i)
  }

  /** A step that leaves the breaker in the map and records no success. */
  ghost predicate Calm(run: seq<State>, i: nat)
    requires i + 1 < |run|
  {
    !Resetting(run[i], run[i + 1])
  }

  /** When the failed initialisations between two points of a run were recorded. */
  ghost function FailureTimes(run: seq<State>, a: nat, m: nat): seq<int>
    requires m < |run|
  {
    if m <= a then []
    else FailureTimes(run, a, m - 1) + if Failing(run[m - 1], run[m]) then [run[m - 1].now] else []
  }

  /** Calls about to record an outcome hold the breaker that is in the map, and no recovery has forgotten it. */
  ghost predicate Attached(s: State) {
    forall p :: p in s.ops ==>
      && (s.ops[p].pc.Recording? ==> s.breaker == Some(s.ops[p].pc.b))
      && !s.ops[p].pc.Quarantining?
  }

  lemma IdleIsAttached(s: State)
    requires Inv(s) && s.initLock.None?
    ensures Attached(s)
  {
  }

  lemma FailingStep(s: State, p: Pid, ok: bool, s': State)
    requires Step(s, p, ok, s')
    ensures Failing(s, s') <==> s.ops[p].pc.Recording? && s.ops[p].pc.won.None?
    ensures Resets(s.ops[p].pc) ==> Resetting(s, s')
  {
    hide IsOpen;
    if Failing(s, s') {
      var q :| q in s.ops && s.ops[q].pc.Recording? && s.ops[q].pc.won.None? && Step(s, q, true, s');
      assert s'.ops[q].pc.Leaving?;
    }
    if s.ops[p].pc.Recording? || Resets(s.ops[p].pc) {
      assert Step(s, p, true, s');
    }
  }

  lemma AttachedStep(s: State, p: Pid, ok: bool, s': State)
    requires Inv(s) && Attached(s) && Step(s, p, ok, s') && !Resets(s.ops[p].pc)
    ensures Attached(s')
    ensures if s.ops[p].pc.Recording? && s.ops[p].pc.won.None? then s'.streak == s.streak + 1 && s'.lastFailure == s.now
            else s'.streak == s.streak && s'.lastFailure == s.lastFailure
  {
    hide IsOpen, BreakerAgrees, Healthy;
  }

  lemma FailingIsStep(s: State, s': State)
    ensures Failing(s, s') ==> exists p, ok :: Step(s, p, ok, s')
  {
  }

  lemma QuietStep(s: State, s': State)
    requires Inv(s) && Attached(s) && Next(s, s') && !Resetting(s, s')
    ensures Attached(s')
    ensures if Failing(s, s') then s'.streak == s.streak + 1 && s'.lastFailure == s.now
            else s'.streak == s.streak && s'.lastFailure == s.lastFailure
  {
    hide Inv, Step, Failing, Resetting;
    if p, ok :| Step(s, p, ok, s') {
      FailingStep(s, p, ok, s');
      AttachedStep(s, p, ok, s');
    } else {
      FailingIsStep(s, s');
    }
  }

  lemma {:induction false} StreakCounts(run: seq<State>, a: nat, m: nat)
    requires Run(run) && a <= m && NoReset(run, a, m) && run[a].initLock.None?
    ensures Attached(run[m])
    ensures var times := FailureTimes(run, a, m);
            && run[m].streak == run[a].streak + |times|
            && (times != [] ==> run[m].lastFailure == times[|times| - 1])
  {
    hide Inv, Next, Attached, Failing, Resetting;
    if m == a {
      RunKeeps(run, a);
      IdleIsAttached(run[a]);
    } else {
      StreakCounts(run, a, m - 1);
      RunKeeps(run, m - 1);
      assert Goes(run, m - 1) && Calm(run, m - 1);
      QuietStep(run[m - 1], run[m]);
    }
  }

  lemma OpeningStarts(s: State, p: Pid, ok: bool, s': State)
    requires Inv(s) && Attached(s) && Step(s, p, ok, s') && p in s'.ops && s'.ops[p].pc.Opening?
    ensures s.streak >= CB_THRESHOLD ==> s.now - s.lastFailure >= CB_COOLDOWN
  {
    hide IsOpen, BreakerAgrees, Healthy, Sections;
    assert SectionOk(s, s.ops[p].pc);
  }

  /**
   * Once three initialisations have failed since the lock was free, with no invalidation, recovery or
   * success in between, the next initialisation starts no sooner than a cooldown after the latest failure.
   */
  lemma CooldownHolds(run: seq<State>, a: nat, m: nat, p: Pid, ok: bool)
    requires Run(run) && a <= m && m + 1 < |run| && NoReset(run, a, m) && run[a].initLock.None?
    requires Step(run[m], p, ok, run[m + 1]) && p in run[m + 1].ops && run[m + 1].ops[p].pc.Opening?
    requires |FailureTimes(run, a, m)| >= CB_THRESHOLD
    ensures var times := FailureTimes(run, a, m); run[m].now - times[|times| - 1] >= CB_COOLDOWN
  {
    hide Run, NoReset, FailureTimes, Step, Inv, Attached, Resetting, Failing;
    StreakCounts(run, a, m);
    RunKeeps(run, m);
    OpeningStarts(run[m], p, ok, run[m + 1]);
  }

  /** And a call that finds the breaker open is turned away: from the third failure on, exactly within the cooldown. */
  lemma OpenWhileCooling(run: seq<State>, i: nat)
    requires Run(run) && i < |run|
    ensures BreakerOpen(run[i]) <==> Cooling(run[i])
  {
    RunKeeps(run, i);
  }

  // ---------- what a call returns ----------

  /** The outcome a call is about to return. */
  function Outcome(pc: Pc): Option<Option<ConnId>> {
    match pc
    case FetchingBreaker(won) => Some(won)
    case Recording(won, _) => Some(won)
    case Leaving(result) => Some(result)
    case Finished(result) => Some(result)
    case _ => None
  }

  /** The call is refused by the open breaker, or fails to move the damaged files or to open the database. */
  ghost predicate Refused(run: seq<State>, p: Pid, k: nat) {
    && k + 1 < |run| && p in run[k].ops
    && (|| (run[k].ops[p].call.GetOrInit? && (run[k].ops[p].pc.FastBreaker? || run[k].ops[p].pc.SlowBreaker?) && BreakerOpen(run[k]))
        || ((run[k].ops[p].pc.Opening? || run[k].ops[p].pc.Quarantining?) && Step(run[k], p, false, run[k + 1])))
  }

  ghost predicate CachedBetween(run: seq<State>, a: nat, i: nat, c: ConnId) {
    exists k: nat :: a <= k <= i && k < |run| && run[k].cached == Some(c)
  }

  ghost predicate RefusedBetween(run: seq<State>, a: nat, i: nat, p: Pid) {
    exists k: nat :: a <= k < i && Refused(run, p, k)
  }

  /** The outcome of the call is accounted for by what happened since it began. */
  ghost predicate Explained(run: seq<State>, a: nat, i: nat, p: Pid)
    requires i < |run|
  {
    p in run[i].ops && var outcome := Outcome(run[i].ops[p].pc);
    && (outcome.Some? && outcome.value.Some? ==> CachedBetween(run, a, i, outcome.value.value))
    && (outcome == Some(None) ==> RefusedBetween(run, a, i, p))
  }

  /** A call goes on only by its own steps. */
  lemma OwnStep(s: State, s': State, p: Pid) returns (own: bool, ok: bool)
    requires p in s.ops && Next(s, s')
    ensures if own then Step(s, p, ok, s') else p in s'.ops && s'.ops[p] == s.ops[p]
  {
    hide BreakerOpen;
    own, ok := false, true;
    if q, result :| Step(s, q, result, s') {
      own, ok := q == p, result;
    }
  }

  /** The steps of a call that is not an invalidation, when it has an outcome afterwards. */
  lemma OutcomeStep(s: State, p: Pid, ok: bool, s': State)
    requires Step(s, p, ok, s') && !s.ops[p].call.Invalidate? && CallFits(s.ops[p])
    ensures p in s'.ops && CallFits(s'.ops[p]) && s'.ops[p].call == s.ops[p].call
    ensures var before, after := Outcome(s.ops[p].pc), Outcome(s'.ops[p].pc);
            && (after.Some? && after.value.Some? ==> before == after || s'.cached == after.value)
            && (after == Some(None) ==>
                  || before == after
                  || (s.ops[p].call.GetOrInit? && (s.ops[p].pc.FastBreaker? || s.ops[p].pc.SlowBreaker?) && BreakerOpen(s))
                  || ((s.ops[p].pc.Opening? || s.ops[p].pc.Quarantining?) && !ok))
  {
    hide BreakerOpen;
  }

  /** Which steps belong to which call. */
  predicate CallFits(op: Op) {
    match op.pc
    case FastBreaker => op.call.GetOrInit?
    case FastCache => op.call.GetOrInit?
    case SlowBreaker => op.call.GetOrInit?
    case SlowCache => op.call.GetOrInit?
    case DropCached => op.call.Recover?
    case DropBreaker => op.call.Recover?
    case Quarantining => op.call.Recover?
    case ForgettingConnection => op.call.Invalidate?
    case ForgettingBreaker => op.call.Invalidate?
    case _ => true
  }

  lemma {:induction false} OutcomesExplained(run: seq<State>, a: nat, i: nat, p: Pid)
    requires Run(run) && a <= i < |run| && p in run[a].ops
    requires var op := run[a].ops[p]; !op.call.Invalidate? && op.pc == Started(op.call)
    ensures Explained(run, a, i, p) && run[i].ops[p].call == run[a].ops[p].call && CallFits(run[i].ops[p])
    decreases i
  {
    hide Next, Step, Outcome, CachedBetween, RefusedBetween;
    if i == a {
      NoOutcomeYet(run[a].ops[p].call);
    } else {
      OutcomesExplained(run, a, i - 1, p);
      assert Goes(run, i - 1);
      var own, ok := OwnStep(run[i - 1], run[i], p);
      if own {
        OutcomeStep(run[i - 1], p, ok, run[i]);
        StaysExplained(run, a, i, p, ok);
      } else {
        LaterToo(run, a, i, p);
      }
    }
  }

  lemma NoOutcomeYet(call: Call)
    ensures Outcome(Started(call)).None? && CallFits(Op(call, Started(call)))
  {
  }

  lemma LaterToo(run: seq<State>, a: nat, i: nat, p: Pid)
    requires 0 < i < |run|
    ensures forall c :: CachedBetween(run, a, i - 1, c) ==> CachedBetween(run, a, i, c)
    ensures RefusedBetween(run, a, i - 1, p) ==> RefusedBetween(run, a, i, p)
  {
    hide Refused;
  }

  lemma StaysExplained(run: seq<State>, a: nat, i: nat, p: Pid, ok: bool)
    requires a < i < |run| && Explained(run, a, i - 1, p) && Step(run[i - 1], p, ok, run[i]) && p in run[i].ops
    requires var s, s' := run[i - 1], run[i];
             var before, after := Outcome(s.ops[p].pc), Outcome(s'.ops[p].pc);
             && (after.Some? && after.value.Some? ==> before == after || s'.cached == after.value)
             && (after == Some(None) ==>
                   || before == after
                   || (s.ops[p].call.GetOrInit? && (s.ops[p].pc.FastBreaker? || s.ops[p].pc.SlowBreaker?) && BreakerOpen(s))
                   || ((s.ops[p].pc.Opening? || s.ops[p].pc.Quarantining?) && !ok))
    ensures Explained(run, a, i, p)
  {
    hide Step, BreakerOpen, Outcome;
    LaterToo(run, a, i, p);
    var after := Outcome(run[i].ops[p].pc);
    if after.Some? && after.value.Some? && run[i].cached == after.value {
      assert CachedBetween(run, a, i, after.value.value);
    }
    if after == Some(None) && Outcome(run[i - 1].ops[p].pc) != after {
      assert Refused(run, p, i - 1);
    }
  }

  /** A connection returned was the cached one at some moment of the call. */
  lemma ReturnedWasCached(run: seq<State>, a: nat, i: nat, p: Pid, c: ConnId)
    requires Run(run) && a <= i < |run| && p in run[a].ops && p in run[i].ops
    requires var op := run[a].ops[p]; !op.call.Invalidate? && op.pc == Started(op.call)
    requires run[i].ops[p].pc == Finished(Some(c))
    ensures CachedBetween(run, a, i, c)
  {
    OutcomesExplained(run, a, i, p);
  }

  /** A call returns without a connection only after it met the open breaker, or its files could not be moved or its database not be opened. */
  lemma FailureHasCause(run: seq<State>, a: nat, i: nat, p: Pid)
    requires Run(run) && a <= i < |run| && p in run[a].ops && p in run[i].ops
    requires var op := run[a].ops[p]; !op.call.Invalidate? && op.pc == Started(op.call)
    requires run[i].ops[p].pc == Finished(None)
    ensures RefusedBetween(run, a, i, p)
  {
    OutcomesExplained(run, a, i, p);
  }
}
