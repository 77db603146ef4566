/** The lock registry and the append journal of one store root. */
module StoreLocks {
  import opened Options
  import opened ConversationTypes

  type Journal = Option<seq<(ThreadId, Message)>>

  /** Registry entries whose mutex some operation still holds an Arc of. */
  function Upgradable<L(==)>(registry: map<ThreadId, L>, referenced: set<L>): map<ThreadId, L> {
    map t | t in registry && registry[t] in referenced :: registry[t]
  }

  /** The mutex registered for a thread, or a new one. */
  function MutexFor<L(==)>(registry: map<ThreadId, L>, referenced: set<L>, t: ThreadId, unused: L): L {
    var kept := Upgradable(registry, referenced);
    if t in kept then kept[t] else unused
  }

  /** An append is recorded while a cold scan is in flight, and only then. */
  function Recorded(journal: Journal, t: ThreadId, m: Message): Journal {
    if journal.Some? then Some(journal.value + [(t, m)]) else None
  }

  /** What a drain hands out. */
  function Drained(journal: Journal): seq<(ThreadId, Message)> {
    GetOr(journal, [])
  }

  /** The mutex of one thread. */
  class ThreadMutex {
    constructor () {
    }
  }

  class StoreLocks {
    var threads: map<ThreadId, ThreadMutex>
    var pendingIndexAppends: Journal

    constructor ()
      ensures threads == map[] && pendingIndexAppends == None
    {
      threads := map[];
      pendingIndexAppends := None;
    }

    /** `referenced` are the mutexes with an Arc outside the registry. */
    method Thread(t: ThreadId, referenced: set<ThreadMutex>) returns (mutex: ThreadMutex)
      modifies this`threads
      ensures t in old(threads) && old(threads)[t] in referenced ==> mutex == old(threads)[t]
      ensures !(t in old(threads) && old(threads)[t] in referenced) ==> fresh(mutex)
      ensures mutex == MutexFor(old(threads), referenced, t, mutex)
      ensures threads == Upgradable(old(threads), referenced)[t := mutex]
    {
      threads := map u | u in threads && threads[u] in referenced :: threads[u];
      if t in threads {
        mutex := threads[t];
      } else {
        mutex := new ThreadMutex();
        threads := threads[t := mutex];
      }
    }

    method BeginIndexBuild()
      requires pendingIndexAppends.None?
      modifies this`pendingIndexAppends
      ensures pendingIndexAppends == Some([])
    {
      pendingIndexAppends := Some([]);
    }

    method RecordIndexAppend(t: ThreadId, m: Message)
      modifies this`pendingIndexAppends
      ensures pendingIndexAppends == Recorded(old(pendingIndexAppends), t, m)
    {
      if pendingIndexAppends.Some? {
        pendingIndexAppends := Some(pendingIndexAppends.value + [(t, m)]);
      }
    }

    method FinishIndexBuild() returns (appends: seq<(ThreadId, Message)>)
      modifies this`pendingIndexAppends
      ensures appends == Drained(old(pendingIndexAppends)) && pendingIndexAppends == None
    {
      appends := if pendingIndexAppends.Some? then pendingIndexAppends.value else [];
      pendingIndexAppends := None;
    }

    method CancelIndexBuild()
      modifies this`pendingIndexAppends
      ensures pendingIndexAppends == None
    {
      pendingIndexAppends := None;
    }

    method RemoveThread(t: ThreadId)
      modifies this`threads
      ensures threads == old(threads) - {t}
    {
      threads := threads - {t};
    }

    method ClearThreads()
      modifies this`threads
      ensures threads == map[]
    {
      threads := map[];
    }
  }

  /** While a mutex is referenced, fetching any thread keeps it registered for its own. */
  lemma FetchKeepsMutex<L>(registry: map<ThreadId, L>, referenced: set<L>, t: ThreadId, unused: L, u: ThreadId)
    requires u in registry && registry[u] in referenced
    ensures var after := Upgradable(registry, referenced)[t := MutexFor(registry, referenced, t, unused)];
            u in after && after[u] == registry[u]
  {
  }
}
