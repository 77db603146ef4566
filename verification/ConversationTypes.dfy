/** Messages of the conversation store and the abstract content of its search index. */
module ConversationTypes {
  import opened Options

  type ThreadId = string
  type MessageId = string

  datatype Message = Message(
    id: MessageId,
    content: string,
    messageType: string,
    extraMetadata: string,
    sender: string,
    createdAt: string
  )

  /** The part of a message the search index keeps. */
  datatype Doc = Doc(role: string, content: string, createdAt: string)

  /** What an index holds: at most one document for each thread and message id. */
  type Index = map<(ThreadId, MessageId), Doc>

  function DocOf(m: Message): Doc {
    Doc(m.sender, m.content, m.createdAt)
  }

  const DETERMINISTIC_MESSAGE_ID_PREFIX := "agent:"

  predicate IsDeterministicMessageId(id: MessageId) {
    DETERMINISTIC_MESSAGE_ID_PREFIX <= id
  }

  /** The earliest row of a transcript with the given id. */
  function Lookup(ms: seq<Message>, id: MessageId): Option<Message> {
    if ms == [] then None
    else
      var earlier := Lookup(ms[..|ms| - 1], id);
      if earlier.Some? then earlier
      else if ms[|ms| - 1].id == id then Some(ms[|ms| - 1])
      else None
  }

  function LookupDoc(ms: seq<Message>, id: MessageId): Option<Doc> {
    var row := Lookup(ms, id);
    if row.Some? then Some(DocOf(row.value)) else None
  }

  lemma LookupAppend(ms: seq<Message>, m: Message, id: MessageId)
    ensures Lookup(ms + [m], id) == OrElse(Lookup(ms, id), if m.id == id then Some(m) else None)
  {
    assert (ms + [m])[..|ms|] == ms;
  }

  /** A lookup finds a row with that id whenever the transcript has one, and it is the earliest. */
  lemma {:induction false} LookupFindsFirst(ms: seq<Message>, id: MessageId)
    ensures Lookup(ms, id).None? <==> forall i :: 0 <= i < |ms| ==> ms[i].id != id
    ensures Lookup(ms, id).Some? ==>
              exists i :: 0 <= i < |ms| && ms[i] == Lookup(ms, id).value && ms[i].id == id
                          && forall j :: 0 <= j < i ==> ms[j].id != id
  {
    if ms != [] {
      var front := ms[..|ms| - 1];
      LookupFindsFirst(front, id);
      if Lookup(front, id).Some? {
        var i :| 0 <= i < |front| && front[i] == Lookup(front, id).value && front[i].id == id
                 && forall j :: 0 <= j < i ==> front[j].id != id;
        assert ms[i] == front[i];
      } else {
        assert forall j :: 0 <= j < |front| ==> ms[j] == front[j];
      }
    }
  }

  /** A lookup in a prefix agrees with the whole transcript wherever it finds something. */
  lemma {:induction false} LookupPrefix(ms: seq<Message>, n: nat, id: MessageId)
    requires n <= |ms|
    ensures Lookup(ms, id) == OrElse(Lookup(ms[..n], id), Lookup(ms, id))
  {
    if n < |ms| {
      assert ms[..|ms| - 1][..n] == ms[..n];
      LookupPrefix(ms[..|ms| - 1], n, id);
    } else {
      assert ms[..n] == ms;
    }
  }

  /** Scan of a message file for one id, line by line. */
  method FindMessageById(ms: seq<Message>, id: MessageId) returns (found: Option<Message>)
    ensures found == Lookup(ms, id)
  {
    for i := 0 to |ms|
      invariant Lookup(ms[..i], id).None?
    {
      assert ms[..i + 1][..i] == ms[..i];
      if ms[i].id == id {
        LookupPrefix(ms, i + 1, id);
        return Some(ms[i]);
      }
    }
    assert ms[..|ms|] == ms;
    return None;
  }

  function IndexGet(ix: Index, t: ThreadId, id: MessageId): Option<Doc> {
    if (t, id) in ix then Some(ix[(t, id)]) else None
  }

  /** Insertion never replaces: a key that is present keeps its document. */
  function IndexInsert(ix: Index, t: ThreadId, m: Message): Index {
    if (t, m.id) in ix then ix else ix[(t, m.id) := DocOf(m)]
  }

  function IndexRemoveThread(ix: Index, t: ThreadId): Index {
    map k | k in ix && k.0 != t :: ix[k]
  }

  function IndexInsertAll(ix: Index, t: ThreadId, ms: seq<Message>): Index {
    if ms == [] then ix
    else IndexInsert(IndexInsertAll(ix, t, ms[..|ms| - 1]), t, ms[|ms| - 1])
  }

  /** Insert journaled appends in the order they were recorded. */
  function IndexReplay(ix: Index, journal: seq<(ThreadId, Message)>): Index {
    if journal == [] then ix
    else
      var last := journal[|journal| - 1];
      IndexInsert(IndexReplay(ix, journal[..|journal| - 1]), last.0, last.1)
  }

  /** The earliest journaled document of a thread with the given id. */
  function JournalDoc(journal: seq<(ThreadId, Message)>, t: ThreadId, id: MessageId): Option<Doc> {
    if journal == [] then None
    else
      var last := journal[|journal| - 1];
      OrElse(JournalDoc(journal[..|journal| - 1], t, id),
             if last.0 == t && last.1.id == id then Some(DocOf(last.1)) else None)
  }

  /** The index holds exactly the first occurrence of every message id of the transcript. */
  ghost predicate Mirrors(ix: Index, t: ThreadId, ms: seq<Message>) {
    forall id :: IndexGet(ix, t, id) == LookupDoc(ms, id)
  }

  lemma {:induction false} InsertAllGet(ix: Index, t: ThreadId, ms: seq<Message>, u: ThreadId, id: MessageId)
    ensures IndexGet(IndexInsertAll(ix, t, ms), u, id)
         == OrElse(IndexGet(ix, u, id), if u == t then LookupDoc(ms, id) else None)
  {
    if ms != [] {
      InsertAllGet(ix, t, ms[..|ms| - 1], u, id);
    }
  }

  lemma {:induction false} ReplayGet(ix: Index, journal: seq<(ThreadId, Message)>, t: ThreadId, id: MessageId)
    ensures IndexGet(IndexReplay(ix, journal), t, id) == OrElse(IndexGet(ix, t, id), JournalDoc(journal, t, id))
  {
    if journal != [] {
      ReplayGet(ix, journal[..|journal| - 1], t, id);
    }
  }

  lemma JournalDocAppend(journal: seq<(ThreadId, Message)>, t: ThreadId, m: Message, u: ThreadId, id: MessageId)
    ensures JournalDoc(journal + [(t, m)], u, id)
         == OrElse(JournalDoc(journal, u, id), if u == t && m.id == id then Some(DocOf(m)) else None)
  {
    assert (journal + [(t, m)])[..|journal|] == journal;
  }

  /** Appending a row to the transcript and inserting it in the index keeps them in step. */
  lemma InsertMirrors(ix: Index, t: ThreadId, ms: seq<Message>, m: Message)
    requires Mirrors(ix, t, ms)
    ensures Mirrors(IndexInsert(ix, t, m), t, ms + [m])
  {
    forall id ensures IndexGet(IndexInsert(ix, t, m), t, id) == LookupDoc(ms + [m], id) {
      LookupAppend(ms, m, id);
      assert IndexGet(ix, t, id) == LookupDoc(ms, id);
      assert IndexGet(ix, t, m.id) == LookupDoc(ms, m.id);
    }
  }

  /** Dropping a thread and inserting its retained rows rebuilds exactly those rows. */
  lemma RebuildMirrors(ix: Index, t: ThreadId, kept: seq<Message>)
    ensures Mirrors(IndexInsertAll(IndexRemoveThread(ix, t), t, kept), t, kept)
    ensures forall u, id :: u != t ==>
              IndexGet(IndexInsertAll(IndexRemoveThread(ix, t), t, kept), u, id) == IndexGet(ix, u, id)
  {
    forall u, id
      ensures u == t ==> IndexGet(IndexInsertAll(IndexRemoveThread(ix, t), t, kept), u, id) == LookupDoc(kept, id)
      ensures u != t ==> IndexGet(IndexInsertAll(IndexRemoveThread(ix, t), t, kept), u, id) == IndexGet(ix, u, id)
    {
      InsertAllGet(IndexRemoveThread(ix, t), t, kept, u, id);
    }
  }
}
