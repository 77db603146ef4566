/** The append-only thread log and its fold into the current thread table. */
module ThreadLog {
  import opened Options
  import opened ConversationTypes

  datatype LogEntry =
    | Upsert(
        threadId: ThreadId,
        title: string,
        createdAt: string,
        updatedAt: string,
        parentThreadId: Option<ThreadId>,
        labels: Option<seq<string>>,
        personalityId: Option<string>)
    | Delete(threadId: ThreadId, deletedAt: string)
    | MessageAppended(threadId: ThreadId, lastMessageAt: string)
    | Stats(threadId: ThreadId, messageCount: nat, lastMessageAt: string)

  datatype ThreadEntry = ThreadEntry(
    title: string,
    createdAt: string,
    parentThreadId: Option<ThreadId>,
    labels: seq<string>,
    messageCount: Option<nat>,
    lastMessageAt: Option<string>,
    personalityId: Option<string>
  )

  type Table = map<ThreadId, ThreadEntry>

  // ---------- labels ----------

  /** Current spelling of a legacy label. */
  function CanonicalLabel(bucket: string): string {
    if bucket == "work" then "general"
    else if bucket == "from_reflection" || bucket == "subconscious_tick" then "subconscious"
    else if bucket == "agent-task" || bucket == "worker" then "tasks"
    else bucket
  }

  function NormalizedLabels(labels: seq<string>): seq<string> {
    if labels == [] then []
    else
      var front := NormalizedLabels(labels[..|labels| - 1]);
      var next := CanonicalLabel(labels[|labels| - 1]);
      if next in front then front else front + [next]
  }

  function InferLabels(t: ThreadId): seq<string> {
    if t == "proactive:morning_briefing" then ["briefing"]
    else if "proactive:" <= t then ["notification"]
    else ["general"]
  }

  method NormalizeLabels(labels: seq<string>) returns (normalized: seq<string>)
    ensures normalized == NormalizedLabels(labels)
  {
    normalized := [];
    for i := 0 to |labels|
      invariant normalized == NormalizedLabels(labels[..i])
    {
      var bucket := labels[i];
      var next := bucket;
      if bucket == "work" {
        next := "general";
      } else if bucket == "from_reflection" || bucket == "subconscious_tick" {
        next := "subconscious";
      } else if bucket == "agent-task" || bucket == "worker" {
        next := "tasks";
      }
      assert labels[..i + 1][..i] == labels[..i];
      if next !in normalized {
        normalized := normalized + [next];
      }
    }
    assert labels[..|labels|] == labels;
  }

  ghost predicate LabelsCanonical(labels: seq<string>) {
    && (forall i :: 0 <= i < |labels| ==> CanonicalLabel(labels[i]) == labels[i])
    && (forall i, j :: 0 <= i < j < |labels| ==> labels[i] != labels[j])
  }

  /** Normalising keeps one copy of each canonical label and invents none. */
  lemma {:induction false} NormalizedLabelsMeaning(labels: seq<string>)
    ensures LabelsCanonical(NormalizedLabels(labels))
    ensures forall b :: b in NormalizedLabels(labels) <==> exists i :: 0 <= i < |labels| && CanonicalLabel(labels[i]) == b
  {
    if labels != [] {
      var front := labels[..|labels| - 1];
      NormalizedLabelsMeaning(front);
      var last := CanonicalLabel(labels[|labels| - 1]);
      assert CanonicalLabel(last) == last;
      forall b
        ensures b in NormalizedLabels(labels) <==> exists i :: 0 <= i < |labels| && CanonicalLabel(labels[i]) == b
      {
        if b in NormalizedLabels(front) {
          var i :| 0 <= i < |front| && CanonicalLabel(front[i]) == b;
          assert labels[i] == front[i];
        }
        if i :| 0 <= i < |labels| && CanonicalLabel(labels[i]) == b {
          if i < |front| {
            assert front[i] == labels[i];
          }
        }
      }
    }
  }

  ghost predicate FirstSpelling(labels: seq<string>, k: nat)
    requires k < |labels|
  {
    forall m :: 0 <= m < k ==> CanonicalLabel(labels[m]) != CanonicalLabel(labels[k])
  }

  lemma FirstInFront(labels: seq<string>, k: nat)
    requires k < |labels|
    ensures k < |labels| - 1 ==> (FirstSpelling(labels[..|labels| - 1], k) <==> FirstSpelling(labels, k))
    ensures FirstSpelling(labels, |labels| - 1) <==> CanonicalLabel(labels[|labels| - 1]) !in NormalizedLabels(labels[..|labels| - 1])
  {
    var front := labels[..|labels| - 1];
    NormalizedLabelsMeaning(front);
    hide CanonicalLabel, NormalizedLabels;
    assert forall m :: 0 <= m < |front| ==> front[m] == labels[m];
  }

  /** The labels kept are those at the positions `from`: the first of each spelling, in order. */
  lemma {:induction false} NormalizedLabelsOrder(labels: seq<string>) returns (from: seq<nat>)
    ensures |from| == |NormalizedLabels(labels)|
    ensures forall n :: 0 <= n < |from| ==> from[n] < |labels| && NormalizedLabels(labels)[n] == CanonicalLabel(labels[from[n]])
    ensures forall n :: 0 < n < |from| ==> from[n - 1] < from[n]
    ensures forall k: nat :: k < |labels| ==> (k in from <==> FirstSpelling(labels, k))
  {
    hide CanonicalLabel, FirstSpelling;
    from := [];
    if labels != [] {
      var last := |labels| - 1;
      var front := labels[..last];
      var before := NormalizedLabelsOrder(front);
      from := before + if CanonicalLabel(labels[last]) in NormalizedLabels(front) then [] else [last];
      forall k: nat | k < |labels| ensures k in from <==> FirstSpelling(labels, k) {
        FirstInFront(labels, k);
        assert last !in before;
      }
    }
  }

  lemma {:induction false} NormalizedLabelsFixed(labels: seq<string>)
    requires LabelsCanonical(labels)
    ensures NormalizedLabels(labels) == labels
  {
    if labels != [] {
      var front := labels[..|labels| - 1];
      NormalizedLabelsFixed(front);
      assert labels == front + [labels[|labels| - 1]];
    }
  }

  // ---------- the fold ----------

  /** One log line applied to the table folded so far. */
  function ApplyEntry(table: Table, e: LogEntry): Table {
    match e
    case Upsert(t, title, createdAt, _, parent, labels, personality) =>
      if t in table then
        var prior := table[t];
        table[t := ThreadEntry(
                 title,
                 prior.createdAt,
                 OrElse(parent, prior.parentThreadId),
                 if labels.Some? then NormalizedLabels(labels.value) else prior.labels,
                 prior.messageCount,
                 prior.lastMessageAt,
                 OrElse(personality, prior.personalityId))]
      else
        table[t := ThreadEntry(
                 title,
                 createdAt,
                 parent,
                 if labels.Some? then NormalizedLabels(labels.value) else InferLabels(t),
                 None,
                 None,
                 personality)]
    case Delete(t, _) => map u | u in table && u != t :: table[u]
    case MessageAppended(t, last) =>
      if t in table then
        var prior := table[t];
        table[t := prior.(messageCount := if prior.messageCount.Some? then Some(prior.messageCount.value + 1) else None,
                        lastMessageAt := Some(last))]
      else table
    case Stats(t, count, last) =>
      if t in table then table[t := table[t].(messageCount := Some(count), lastMessageAt := Some(last))]
      else table
  }

  function Fold(log: seq<LogEntry>): Table {
    if log == [] then map[] else ApplyEntry(Fold(log[..|log| - 1]), log[|log| - 1])
  }

  lemma FoldAppend(log: seq<LogEntry>, e: LogEntry)
    ensures Fold(log + [e]) == ApplyEntry(Fold(log), e)
  {
    assert (log + [e])[..|log|] == log;
  }

  /** The fold loop over the lines of the log. */
  method FoldThreadLog(log: seq<LogEntry>) returns (index: Table)
    ensures index == Fold(log)
  {
    index := map[];
    for i := 0 to |log|
      invariant index == Fold(log[..i])
    {
      assert log[..i + 1][..i] == log[..i];
      match log[i] {
        case Upsert(t, title, createdAt, _, parent, labels, personality) =>
          var entry;
          if t in index {
            var existing := index[t];
            var kept := existing.labels;
            if labels.Some? {
              kept := NormalizeLabels(labels.value);
            }
            entry := ThreadEntry(title, existing.createdAt, OrElse(parent, existing.parentThreadId), kept,
                                 existing.messageCount, existing.lastMessageAt,
                                 OrElse(personality, existing.personalityId));
          } else {
            var inferred := InferLabels(t);
            if labels.Some? {
              inferred := NormalizeLabels(labels.value);
            }
            entry := ThreadEntry(title, createdAt, parent, inferred, None, None, personality);
          }
          index := index[t := entry];
        case Delete(t, _) =>
          index := map u | u in index && u != t :: index[u];
        case MessageAppended(t, last) =>
          if t in index {
            var entry := index[t];
            if entry.messageCount.Some? {
              entry := entry.(messageCount := Some(entry.messageCount.value + 1));
            }
            index := index[t := entry.(lastMessageAt := Some(last))];
          }
        case Stats(t, count, last) =>
          if t in index {
            index := index[t := index[t].(messageCount := Some(count), lastMessageAt := Some(last))];
          }
      }
    }
    assert log[..|log|] == log;
  }

  /** `at` is the upsert that (re)created thread `t`: no later delete, and a delete or nothing before it. */
  ghost predicate Creates(log: seq<LogEntry>, t: ThreadId, at: int) {
    && 0 <= at < |log| && log[at].Upsert? && log[at].threadId == t
    && (forall k :: at < k < |log| && log[k].threadId == t ==> !log[k].Delete?)
    && (forall k :: 0 <= k < at && log[k].threadId == t && log[k].Upsert? ==>
          exists d :: k < d < at && log[d].Delete? && log[d].threadId == t)
  }

  /** A thread is live exactly when an upsert created it and nothing deleted it since; it keeps that creation time. */
  lemma {:induction false} FoldLife(log: seq<LogEntry>, t: ThreadId)
    ensures t in Fold(log) <==> exists at :: Creates(log, t, at)
    ensures forall at :: Creates(log, t, at) ==> t in Fold(log) && Fold(log)[t].createdAt == log[at].createdAt
  {
    if log != [] {
      var n := |log| - 1;
      var front, last := log[..n], log[n];
      FoldLife(front, t);
      FoldLifeStep(front, last, t);
      assert front + [last] == log;
    }
  }

  lemma FoldLifeStep(front: seq<LogEntry>, last: LogEntry, t: ThreadId)
    requires t in Fold(front) <==> exists at :: Creates(front, t, at)
    requires forall at :: Creates(front, t, at) ==> t in Fold(front) && Fold(front)[t].createdAt == front[at].createdAt
    ensures t in Fold(front + [last]) <==> exists at :: Creates(front + [last], t, at)
    ensures forall at :: Creates(front + [last], t, at) ==>
              t in Fold(front + [last]) && Fold(front + [last])[t].createdAt == (front + [last])[at].createdAt
  {
    var log := front + [last];
    FoldAppend(front, last);
    var n := |front|;
    if last.threadId == t && last.Delete? {
      assert forall at :: at < n ==> !Creates(log, t, at);
    } else {
      forall at | 0 <= at < n
        ensures Creates(log, t, at) <==> Creates(front, t, at)
      {
        CreatesExtends(front, last, t, at);
      }
      if last.threadId == t && last.Upsert? {
        if t in Fold(front) {
          var at :| Creates(front, t, at);
          assert !Creates(log, t, n);
        } else {
          DeadSinceDelete(front, t);
          assert Creates(log, t, n) by {
            forall k | 0 <= k < n && log[k].threadId == t && log[k].Upsert?
              ensures exists d :: k < d < n && log[d].Delete? && log[d].threadId == t
            {
              assert front[k] == log[k];
              var d :| k < d < n && front[d].Delete? && front[d].threadId == t;
              assert log[d] == front[d];
            }
          }
        }
      }
    }
  }

  lemma CreatesExtends(front: seq<LogEntry>, last: LogEntry, t: ThreadId, at: nat)
    requires at < |front|
    requires !(last.threadId == t && last.Delete?)
    ensures Creates(front + [last], t, at) <==> Creates(front, t, at)
  {
    var log := front + [last];
    assert forall k :: 0 <= k < |front| ==> log[k] == front[k];
    if Creates(log, t, at) {
      forall k | 0 <= k < at && front[k].threadId == t && front[k].Upsert?
        ensures exists d :: k < d < at && front[d].Delete? && front[d].threadId == t
      {
        assert log[k] == front[k];
        var d :| k < d < at && log[d].Delete? && log[d].threadId == t;
        assert front[d] == log[d];
      }
    }
    if Creates(front, t, at) {
      forall k | 0 <= k < at && log[k].threadId == t && log[k].Upsert?
        ensures exists d :: k < d < at && log[d].Delete? && log[d].threadId == t
      {
        assert log[k] == front[k];
        var d :| k < d < at && front[d].Delete? && front[d].threadId == t;
        assert front[d] == log[d];
      }
    }
  }

  /** In the log of a dead thread every upsert is followed by a delete. */
  lemma {:induction false} DeadSinceDelete(log: seq<LogEntry>, t: ThreadId)
    requires t !in Fold(log)
    ensures forall k :: 0 <= k < |log| && log[k].threadId == t && log[k].Upsert? ==>
              exists d :: k < d < |log| && log[d].Delete? && log[d].threadId == t
  {
    if log != [] {
      var n := |log| - 1;
      var front, last := log[..n], log[n];
      if last.Delete? && last.threadId == t {
        forall k | 0 <= k < |log| && log[k].threadId == t && log[k].Upsert?
          ensures exists d :: k < d < |log| && log[d].Delete? && log[d].threadId == t
        {
          assert k < n;
        }
      } else {
        assert t !in Fold(front);
        DeadSinceDelete(front, t);
        forall k | 0 <= k < |log| && log[k].threadId == t && log[k].Upsert?
          ensures exists d :: k < d < |log| && log[d].Delete? && log[d].threadId == t
        {
          assert log[k] == front[k];
          var d :| k < d < |front| && front[d].Delete? && front[d].threadId == t;
          assert log[d] == front[d];
        }
      }
    }
  }

  // ---------- what a thread is called, filed under and labelled ----------

  datatype Field = Title | Labels | Parent | Personality

  /** The line says what the field of the thread is. */
  predicate Says(e: LogEntry, t: ThreadId, f: Field) {
    e.Upsert? && e.threadId == t &&
    match f
    case Title => true
    case Labels => e.labels.Some?
    case Parent => e.parentThreadId.Some?
    case Personality => e.personalityId.Some?
  }

  /** The entry has in this field what the line says. */
  predicate Told(entry: ThreadEntry, f: Field, e: LogEntry, t: ThreadId)
    requires Says(e, t, f)
  {
    match f
    case Title => entry.title == e.title
    case Labels => entry.labels == NormalizedLabels(e.labels.value)
    case Parent => entry.parentThreadId == e.parentThreadId
    case Personality => entry.personalityId == e.personalityId
  }

  /** The entry has in this field what a thread has before any line says it. */
  predicate Untold(entry: ThreadEntry, f: Field, t: ThreadId) {
    match f
    case Title => false
    case Labels => entry.labels == InferLabels(t)
    case Parent => entry.parentThreadId.None?
    case Personality => entry.personalityId.None?
  }

  predicate SameField(a: ThreadEntry, b: ThreadEntry, f: Field) {
    match f
    case Title => a.title == b.title
    case Labels => a.labels == b.labels
    case Parent => a.parentThreadId == b.parentThreadId
    case Personality => a.personalityId == b.personalityId
  }

  /** `at` is the last line since `from` that says it. */
  ghost predicate LastSays(log: seq<LogEntry>, t: ThreadId, f: Field, from: int, at: int) {
    0 <= from <= at < |log| && Says(log[at], t, f) && forall k :: at < k < |log| ==> !Says(log[k], t, f)
  }

  ghost predicate Silent(log: seq<LogEntry>, t: ThreadId, f: Field, from: int) {
    forall k :: 0 <= from <= k < |log| ==> !Says(log[k], t, f)
  }

  lemma FieldAfter(table: Table, e: LogEntry, t: ThreadId, f: Field)
    requires t in table && t in ApplyEntry(table, e)
    ensures if Says(e, t, f) then Told(ApplyEntry(table, e)[t], f, e, t) else SameField(ApplyEntry(table, e)[t], table[t], f)
  {
    hide NormalizedLabels;
  }

  lemma FieldAtBirth(table: Table, e: LogEntry, t: ThreadId, f: Field)
    requires t !in table && e.Upsert? && e.threadId == t
    ensures t in ApplyEntry(table, e)
    ensures if Says(e, t, f) then Told(ApplyEntry(table, e)[t], f, e, t) else Untold(ApplyEntry(table, e)[t], f, t)
  {
    hide NormalizedLabels;
  }

  lemma NotLiveBefore(log: seq<LogEntry>, t: ThreadId)
    requires log != [] && Creates(log, t, |log| - 1)
    ensures t !in Fold(log[..|log| - 1])
  {
    var front := log[..|log| - 1];
    FoldLife(front, t);
    hide Fold;
    if t in Fold(front) {
      var at :| Creates(front, t, at);
      assert log[at] == front[at];
      var d :| at < d < |front| && log[d].Delete? && log[d].threadId == t;
    }
  }

  /**
   * Since it was created a thread has the title of its last upsert, the normal form of the last
   * labels an upsert gave it or else the inferred ones, and the last parent and personality an
   * upsert gave it or else none.
   */
  lemma {:induction false} FoldFields(log: seq<LogEntry>, t: ThreadId, created: int, f: Field)
    requires Creates(log, t, created)
    ensures t in Fold(log)
    ensures forall at :: LastSays(log, t, f, created, at) ==> Told(Fold(log)[t], f, log[at], t)
    ensures Silent(log, t, f, created) ==> Untold(Fold(log)[t], f, t)
    decreases |log|
  {
    hide ApplyEntry, Told, Untold, SameField, Says;
    var n := |log| - 1;
    var front, last := log[..n], log[n];
    if created == n {
      NotLiveBefore(log, t);
      FieldAtBirth(Fold(front), last, t, f);
      hide Creates;
    } else {
      assert !(last.threadId == t && last.Delete?);
      assert front + [last] == log;
      CreatesExtends(front, last, t, created);
      hide Creates;
      FoldFields(front, t, created, f);
      StaysLive(Fold(front), last, t);
      FieldAfter(Fold(front), last, t, f);
      FieldKept(log, front, last, t, created, f);
    }
  }

  lemma StaysLive(table: Table, e: LogEntry, t: ThreadId)
    requires t in table && !(e.threadId == t && e.Delete?)
    ensures t in ApplyEntry(table, e)
  {
  }

  lemma FieldKept(log: seq<LogEntry>, front: seq<LogEntry>, last: LogEntry, t: ThreadId, created: int, f: Field)
    requires log == front + [last] && 0 <= created < |front| && t in Fold(front) && t in Fold(log)
    requires if Says(last, t, f) then Told(Fold(log)[t], f, last, t) else SameField(Fold(log)[t], Fold(front)[t], f)
    requires forall at :: LastSays(front, t, f, created, at) ==> Told(Fold(front)[t], f, front[at], t)
    requires Silent(front, t, f, created) ==> Untold(Fold(front)[t], f, t)
    ensures forall at :: LastSays(log, t, f, created, at) ==> Told(Fold(log)[t], f, log[at], t)
    ensures Silent(log, t, f, created) ==> Untold(Fold(log)[t], f, t)
  {
    hide Fold, Says, NormalizedLabels;
    assert forall k :: 0 <= k < |front| ==> log[k] == front[k];
    forall at | LastSays(log, t, f, created, at) ensures Told(Fold(log)[t], f, log[at], t) {
      if at < |front| {
        assert log[|front|] == last && !Says(last, t, f);
        assert LastSays(front, t, f, created, at);
      }
    }
    if Silent(log, t, f, created) {
      assert log[|front|] == last && !Says(last, t, f);
      assert Silent(front, t, f, created);
    }
  }

  /** One line keeps the labels of a thread, normalises new ones, or infers a single one. */
  lemma LabelsAfter(table: Table, e: LogEntry, t: ThreadId)
    requires t in ApplyEntry(table, e)
    ensures var labels := ApplyEntry(table, e)[t].labels;
            || (t in table && labels == table[t].labels)
            || (e.Upsert? && e.labels.Some? && labels == NormalizedLabels(e.labels.value))
            || (|labels| == 1 && CanonicalLabel(labels[0]) == labels[0])
  {
    hide NormalizedLabels;
  }

  /** Folded labels are always canonical, so listing a thread shows them unchanged. */
  lemma {:induction false} FoldedLabelsCanonical(log: seq<LogEntry>, t: ThreadId)
    requires t in Fold(log)
    ensures LabelsCanonical(Fold(log)[t].labels)
    ensures NormalizedLabels(Fold(log)[t].labels) == Fold(log)[t].labels
  {
    var front, last := log[..|log| - 1], log[|log| - 1];
    assert Fold(log) == ApplyEntry(Fold(front), last);
    LabelsAfter(Fold(front), last, t);
    hide Fold, ApplyEntry, NormalizedLabels, CanonicalLabel;
    if t in Fold(front) {
      FoldedLabelsCanonical(front, t);
    }
    if last.Upsert? && last.labels.Some? {
      NormalizedLabelsMeaning(last.labels.value);
    }
    NormalizedLabelsFixed(Fold(log)[t].labels);
  }

  /** A new line for a thread keeps its count, its last timestamp and its creation time; a new thread has no count. */
  lemma UpsertEntry(table: Table, line: LogEntry, t: ThreadId)
    requires line.Upsert? && line.threadId == t
    ensures t in ApplyEntry(table, line)
    ensures var after := ApplyEntry(table, line)[t];
            if t in table then
              after.messageCount == table[t].messageCount && after.lastMessageAt == table[t].lastMessageAt
              && after.createdAt == table[t].createdAt
            else after.messageCount.None? && after.lastMessageAt.None?
  {
  }
}
