/**
 * Any number of writers recording turns of one session at once, without locks: each lists the
 * directory, picks the next number, and publishes with a link that fails when the file is there.
 */
module ArchiveWriters {
  import opened Archive
  import opened ArchiveSession
  import opened Decimal

  type Pid = nat

  datatype Phase =
    | Listing                  // about to read the directory
    | Checking(number: nat)    // about to test whether the file is there
    | Linking(number: nat)     // the temporary file is written; about to link it
    | Recorded(number: nat)
    | Failed

  /** `startCount` and `failures` are auxiliary: files present when the writer started, and lost attempts. */
  datatype Writer = Writer(turn: Turn, phase: Phase, startCount: nat, failures: nat)

  datatype Session = Session(files: map<nat, Turn>, writers: map<Pid, Writer>)

  function At(s: Session, p: Pid, phase: Phase): Session
    requires p in s.writers
  {
    s.(writers := s.writers[p := s.writers[p].(phase := phase)])
  }

  /** An attempt was lost to a file that is already there. */
  function Retry(s: Session, p: Pid): Session
    requires p in s.writers
  {
    s.(writers := s.writers[p := s.writers[p].(phase := Listing, failures := s.writers[p].failures + 1)])
  }

  ghost predicate Spawn(s: Session, p: Pid, turn: Turn, s': Session) {
    p !in s.writers && s' == s.(writers := s.writers[p := Writer(turn, Listing, |s.files|, 0)])
  }

  /** One step of a writer; a listing may be stale or partial, and a link may fail for another reason. */
  ghost predicate Step(s: Session, p: Pid, listed: set<nat>, linkWorks: bool, s': Session) {
    p in s.writers &&
    var w := s.writers[p];
    match w.phase
    case Listing => listed <= s.files.Keys && exists next :: IsNext(listed, next) && s' == At(s, p, Checking(next))
    case Checking(n) => s' == if n in s.files then Retry(s, p) else At(s, p, Linking(n))
    case Linking(n) =>
      if n in s.files then s' == Retry(s, p)
      else if linkWorks then s' == At(s, p, Recorded(n)).(files := s.files[n := w.turn.(number := n)])
      else s' == At(s, p, Failed)
    case Recorded(_) => false
    case Failed => false
  }

  /** Every listing is complete at the moment it is made, and the numbers are not used up. */
  ghost predicate AtomicStep(s: Session, p: Pid, listed: set<nat>, linkWorks: bool, s': Session) {
    Step(s, p, listed, linkWorks, s') && (s.writers[p].phase.Listing? ==> listed == s.files.Keys && |s.files| < U32_LIMIT)
  }

  const EMPTY := Session(map[], map[])

  // ---------- what every step keeps ----------

  ghost predicate Owns(s: Session, p: Pid, n: nat) {
    p in s.writers && s.writers[p].phase == Recorded(n)
  }

  ghost predicate Dense(files: map<nat, Turn>) {
    (forall k: nat :: k in files <==> k < |files|) && |files| <= U32_LIMIT
  }

  ghost predicate WriterOk(files: map<nat, Turn>, w: Writer) {
    match w.phase
    case Listing => true
    case Checking(n) => n <= |files| && n < U32_LIMIT
    case Linking(n) => n <= |files| && n < U32_LIMIT
    case Recorded(n) => n in files && files[n] == w.turn.(number := n)
    case Failed => true
  }

  ghost predicate Owned(s: Session) {
    && (forall p, q, n: nat :: Owns(s, p, n) && Owns(s, q, n) ==> p == q)
    && (forall n: nat :: n in s.files ==> exists p :: Owns(s, p, n))
  }

  ghost predicate Inv(s: Session) {
    Dense(s.files) && Owned(s) && forall p :: p in s.writers ==> WriterOk(s.files, s.writers[p])
  }

  lemma NextAtMost(listed: set<nat>, files: map<nat, Turn>, next: nat)
    requires Dense(files) && listed <= files.Keys && IsNext(listed, next)
    ensures next <= |files| && next < U32_LIMIT
    ensures listed == files.Keys && |files| < U32_LIMIT ==> next == |files|
    ensures listed == files.Keys && |files| == U32_LIMIT ==> next == 0
  {
    var n := |files|;
    if listed == files.Keys && n > 0 {
      assert n - 1 in listed && n !in listed;
    }
  }

  /** A writer that has not recorded moves on without recording. */
  lemma MovedKeeps(s: Session, p: Pid, w: Writer, s': Session)
    requires Inv(s) && p in s.writers && !s.writers[p].phase.Recorded? && !w.phase.Recorded? && WriterOk(s.files, w)
    requires s' == s.(writers := s.writers[p := w])
    ensures Inv(s')
  {
    hide WriterOk, Dense;
    assert forall q, n :: Owns(s', q, n) <==> Owns(s, q, n);
    hide Owns;
    forall n: nat | n in s'.files ensures exists q :: Owns(s', q, n) {
      var q :| Owns(s, q, n);
      assert Owns(s', q, n);
    }
  }

  lemma DenseExtend(files: map<nat, Turn>, n: nat, turn: Turn)
    requires Dense(files) && n !in files && n <= |files| && n < U32_LIMIT
    ensures n == |files| && Dense(files[n := turn]) && |files[n := turn]| == |files| + 1
  {
  }

  lemma PublishedOwned(s: Session, p: Pid, n: nat, s': Session)
    requires Owned(s) && p in s.writers && s.writers[p].phase == Linking(n) && n !in s.files
    requires forall q, m: nat :: Owns(s, q, m) ==> m in s.files
    requires s' == At(s, p, Recorded(n)).(files := s.files[n := s.writers[p].turn.(number := n)])
    ensures Owned(s')
  {
    assert Owns(s', p, n);
    assert forall q, m: nat :: Owns(s', q, m) <==> Owns(s, q, m) || (q == p && m == n);
    hide Owns;
    forall m: nat | m in s'.files ensures exists q :: Owns(s', q, m) {
      if m != n {
        var q :| Owns(s, q, m);
        assert Owns(s', q, m);
      }
    }
  }

  /** Publishing under the next number extends the dense range by one. */
  lemma PublishedKeeps(s: Session, p: Pid, n: nat, s': Session)
    requires Inv(s) && p in s.writers && s.writers[p].phase == Linking(n) && n !in s.files
    requires s' == At(s, p, Recorded(n)).(files := s.files[n := s.writers[p].turn.(number := n)])
    ensures Inv(s') && n == |s.files|
  {
    hide Owns, Dense, Owned, WriterOk;
    var turn := s.writers[p].turn.(number := n);
    LinkingOk(s.files, s.writers[p]);
    OwnersHaveFiles(s);
    PublishedOwned(s, p, n, s');
    DenseExtend(s.files, n, turn);
    forall q | q in s'.writers ensures WriterOk(s'.files, s'.writers[q]) {
      if q == p {
        RecordedOk(s'.files, s'.writers[q]);
      } else {
        WriterOkGrows(s.files, n, turn, s.writers[q]);
      }
    }
  }

  lemma LinkingOk(files: map<nat, Turn>, w: Writer)
    requires WriterOk(files, w) && w.phase.Linking?
    ensures w.phase.number <= |files| && w.phase.number < U32_LIMIT
  {
  }

  lemma RecordedOk(files: map<nat, Turn>, w: Writer)
    requires w.phase.Recorded? && w.phase.number in files && files[w.phase.number] == w.turn.(number := w.phase.number)
    ensures WriterOk(files, w)
  {
  }

  lemma WriterOkGrows(files: map<nat, Turn>, n: nat, turn: Turn, w: Writer)
    requires WriterOk(files, w) && n !in files
    ensures WriterOk(files[n := turn], w)
  {
  }

  lemma OwnersHaveFiles(s: Session)
    requires Inv(s)
    ensures forall q, m: nat :: Owns(s, q, m) ==> m in s.files
  {
    forall q, m: nat | Owns(s, q, m) ensures m in s.files {
      assert WriterOk(s.files, s.writers[q]);
    }
  }

  /** The files stay dense, each belongs to one successful writer, and none is ever changed or removed. */
  lemma StepKeeps(s: Session, p: Pid, listed: set<nat>, linkWorks: bool, s': Session)
    requires Inv(s) && Step(s, p, listed, linkWorks, s')
    ensures Inv(s')
    ensures forall n :: n in s.files ==> n in s'.files && s'.files[n] == s.files[n]
  {
    hide Inv, Dense, Owned;
    assert Dense(s.files) && WriterOk(s.files, s.writers[p]) by {
      InvParts(s, p);
    }
    var w := s.writers[p];
    if w.phase.Linking? && w.phase.number !in s.files && linkWorks {
      PublishedKeeps(s, p, w.phase.number, s');
    } else {
      if w.phase.Listing? {
        var next :| IsNext(listed, next) && s' == At(s, p, Checking(next));
        NextAtMost(listed, s.files, next);
      }
      MovedKeeps(s, p, s'.writers[p], s');
    }
  }

  lemma InvParts(s: Session, p: Pid)
    requires Inv(s) && p in s.writers
    ensures Dense(s.files) && WriterOk(s.files, s.writers[p])
  {
  }

  lemma SpawnKeeps(s: Session, p: Pid, turn: Turn, s': Session)
    requires Inv(s) && Spawn(s, p, turn, s')
    ensures Inv(s') && s'.files == s.files
  {
    hide Dense;
    assert forall q, n :: Owns(s', q, n) <==> Owns(s, q, n);
    hide Owns;
    forall n: nat | n in s'.files ensures exists q :: Owns(s', q, n) {
      var q :| Owns(s, q, n);
      assert Owns(s', q, n);
    }
  }

  // ---------- runs ----------

  ghost predicate Next(s: Session, s': Session) {
    || (exists p, turn :: Spawn(s, p, turn, s'))
    || (exists p, listed, linkWorks :: Step(s, p, listed, linkWorks, s'))
  }

  ghost predicate Run(run: seq<Session>) {
    run != [] && run[0] == EMPTY && forall i: nat :: i + 1 < |run| ==> Goes(run, i)
  }

  /** One step of a run. */
  ghost predicate Goes(run: seq<Session>, i: nat)
    requires i + 1 < |run|
  {
    Next(run[i], run[i + 1])
  }

  lemma {:induction false} RunInv(run: seq<Session>, i: nat)
    requires Run(run) && i < |run|
    ensures Inv(run[i])
  {
    hide Inv;
    if i == 0 {
      EmptyInv();
    } else {
      RunInv(run, i - 1);
      assert Goes(run, i - 1);
      NextKeeps(run[i - 1], run[i]);
    }
  }

  lemma EmptyInv()
    ensures Inv(EMPTY)
  {
  }

  lemma NextKeeps(s: Session, s': Session)
    requires Inv(s) && Next(s, s')
    ensures Inv(s') && forall n :: n in s.files ==> n in s'.files && s'.files[n] == s.files[n]
  {
    hide Step, Inv;
    if p, turn :| Spawn(s, p, turn, s') {
      SpawnKeeps(s, p, turn, s');
    } else {
      var p, listed, linkWorks :| Step(s, p, listed, linkWorks, s');
      StepKeeps(s, p, listed, linkWorks, s');
    }
  }

  /** Once published, a turn stays as it is. */
  lemma {:induction false} NeverOverwritten(run: seq<Session>, i: nat, j: nat, n: nat)
    requires Run(run) && i <= j < |run| && n in run[i].files
    ensures n in run[j].files && run[j].files[n] == run[i].files[n]
  {
    hide Next, Inv;
    if i < j {
      NeverOverwritten(run, i, j - 1, n);
      RunInv(run, j - 1);
      assert Goes(run, j - 1);
      NextKeeps(run[j - 1], run[j]);
    }
  }

  /**
   * In every reachable state the files are exactly 0 to n-1, each is the turn of exactly one
   * successful writer, and each successful writer's turn is there under its own number.
   */
  lemma SessionIsDense(run: seq<Session>, i: nat)
    requires Run(run) && i < |run|
    ensures var s := run[i];
            && (forall n: nat :: n in s.files <==> n < |s.files|)
            && (forall p, n: nat :: Owns(s, p, n) ==> n in s.files && s.files[n] == s.writers[p].turn.(number := n))
            && (forall p, q, n: nat :: Owns(s, p, n) && Owns(s, q, n) ==> p == q)
            && (forall n: nat :: n in s.files ==> exists p :: Owns(s, p, n))
  {
    RunInv(run, i);
  }

  // ---------- the price of a failed attempt ----------

  /** Every lost attempt of a writer was won by another since it started. */
  ghost predicate WriterPaid(count: nat, w: Writer) {
    match w.phase
    case Listing => w.startCount + w.failures <= count
    case Checking(n) => w.startCount + w.failures <= n
    case Linking(n) => w.startCount + w.failures <= n
    case Recorded(n) => w.startCount + w.failures <= n
    case Failed => w.startCount + w.failures <= count
  }

  ghost predicate Paid(s: Session) {
    forall p :: p in s.writers ==> WriterPaid(|s.files|, s.writers[p])
  }

  lemma AtomicStepPays(s: Session, p: Pid, listed: set<nat>, linkWorks: bool, s': Session)
    requires Inv(s) && Paid(s) && AtomicStep(s, p, listed, linkWorks, s')
    ensures Paid(s')
  {
    hide Inv, Dense;
    InvParts(s, p);
    var w := s.writers[p];
    assert WriterPaid(|s.files|, w);
    if w.phase.Listing? {
      var next :| IsNext(listed, next) && s' == At(s, p, Checking(next));
      NextAtMost(listed, s.files, next);
    } else if w.phase.Linking? && w.phase.number !in s.files && linkWorks {
      PublishedKeeps(s, p, w.phase.number, s');
    } else {
      TakenBelow(s.files, w);
    }
  }

  lemma TakenBelow(files: map<nat, Turn>, w: Writer)
    requires Dense(files) && WriterOk(files, w)
    ensures (w.phase.Checking? || w.phase.Linking?) && w.phase.number in files ==> w.phase.number < |files|
  {
  }

  ghost predicate AtomicNext(s: Session, s': Session) {
    || (exists p, turn :: Spawn(s, p, turn, s'))
    || (exists p, listed, linkWorks :: AtomicStep(s, p, listed, linkWorks, s'))
  }

  ghost predicate AtomicRun(run: seq<Session>) {
    Run(run) && forall i: nat :: i + 1 < |run| ==> GoesAtomically(run, i)
  }

  ghost predicate GoesAtomically(run: seq<Session>, i: nat)
    requires i + 1 < |run|
  {
    AtomicNext(run[i], run[i + 1])
  }

  lemma AtomicRunParts(run: seq<Session>, i: nat)
    requires AtomicRun(run) && i < |run|
    ensures Run(run) && (if i == 0 then run[i] == EMPTY else AtomicNext(run[i - 1], run[i]))
  {
    if i > 0 {
      assert GoesAtomically(run, i - 1);
    }
  }

  lemma EmptyPaid()
    ensures Paid(EMPTY)
  {
  }

  /**
   * With complete listings a writer loses at most as many attempts as other writers have
   * recorded turns since it started.
   */
  lemma {:induction false} FailuresArePaid(run: seq<Session>, i: nat)
    requires AtomicRun(run) && i < |run|
    ensures Paid(run[i])
    ensures forall p, n: nat :: Owns(run[i], p, n) ==> run[i].writers[p].failures <= n - run[i].writers[p].startCount
  {
    hide AtomicStep, Inv, Paid, Run, AtomicRun;
    AtomicRunParts(run, i);
    if i == 0 {
      EmptyPaid();
    } else {
      FailuresArePaid(run, i - 1);
      RunInv(run, i - 1);
      var s, s' := run[i - 1], run[i];
      if p, turn :| Spawn(s, p, turn, s') {
        SpawnPays(s, p, turn, s');
      } else {
        var p, listed, linkWorks :| AtomicStep(s, p, listed, linkWorks, s');
        AtomicStepPays(s, p, listed, linkWorks, s');
      }
      PaidOwners(s');
    }
  }

  lemma PaidOwners(s: Session)
    requires Paid(s)
    ensures forall p, n: nat :: Owns(s, p, n) ==> s.writers[p].failures <= n - s.writers[p].startCount
  {
  }

  lemma SpawnPays(s: Session, p: Pid, turn: Turn, s': Session)
    requires Paid(s) && Spawn(s, p, turn, s')
    ensures Paid(s')
  {
  }

  /** Once all numbers are used up, a writer with a complete listing tries number 0, which is taken: no writer succeeds any more. */
  lemma FullSession(s: Session, p: Pid, listed: set<nat>, linkWorks: bool, s': Session)
    requires Inv(s) && |s.files| == U32_LIMIT && Step(s, p, listed, linkWorks, s')
    ensures s'.files == s.files
    ensures s.writers[p].phase.Listing? && listed == s.files.Keys ==> s'.writers[p].phase == Checking(0) && 0 in s.files
  {
    hide Owned;
    assert WriterOk(s.files, s.writers[p]);
    if s.writers[p].phase.Listing? {
      var next :| IsNext(listed, next) && s' == At(s, p, Checking(next));
      NextAtMost(listed, s.files, next);
    }
  }

  // ---------- what a reader gets ----------

  function TurnsOf(files: map<nat, Turn>): seq<Turn>
    requires forall k: nat :: k < |files| ==> k in files
  {
    seq(|files|, k requires 0 <= k < |files| => files[k])
  }

  /** Reading the directory gives each successful writer's turn once, at the place of the number it won. */
  lemma RecordedIsRead(run: seq<Session>, i: nat, dir: seq<(string, string)>, p: Pid, n: nat)
    requires Run(run) && i < |run| && Owns(run[i], p, n)
    requires forall k: nat :: k < |run[i].files| ==> k in run[i].files
    requires Holds(dir, TurnsOf(run[i].files))
    requires forall k: nat :: k in run[i].files ==> Representable(run[i].files[k])
    ensures var read := ParsedAll(SortedEntries(dir));
            |read| == |run[i].files| && n < |read| && read[n] == ReadBack(run[i].writers[p].turn.(number := n))
  {
    hide Holds, Run, Representable, ReadBack;
    RunInv(run, i);
    SessionReadBack(dir, TurnsOf(run[i].files));
    assert WriterOk(run[i].files, run[i].writers[p]);
  }
}
