/** The in-memory n-gram index over conversation messages, proved against the abstract `Index`. */
module InvertedIndex {
  import opened Options
  import opened ConversationTypes
  import opened Postings
  import opened Ranking
  import opened TextScan
  import opened Tokenize
  import opened Unicode

  const MIN_TERM_BYTES := 3
  const LARGE_CANDIDATE_LIMIT := 10_000

  type Key = (ThreadId, MessageId)

  datatype DocEntry = DocEntry(
    threadId: ThreadId,
    messageId: MessageId,
    role: string,
    content: string,
    contentNormalized: string,
    createdAt: string,
    createdAtMs: int
  )

  datatype Hit = Hit(threadId: ThreadId, messageId: MessageId, role: string, content: string, createdAt: string, score: real)

  // ---------- what a search means, over the abstract index ----------

  /** How characters are lower-cased and timestamps read; both come from outside the index. */
  datatype Reading = Reading(lower: char -> string, millis: string -> int)

  function KeyOf(e: DocEntry): Key {
    (e.threadId, e.messageId)
  }

  function EntryDoc(e: DocEntry): Doc {
    Doc(e.role, e.content, e.createdAt)
  }

  /** The query terms long enough to be searched, normalised. */
  function Terms(reading: Reading, words: seq<string>): seq<string> {
    if words == [] then []
    else
      var word := words[|words| - 1];
      var normalized := Normalized(reading.lower, word);
      Terms(reading, words[..|words| - 1])
      + if ByteLen(word) >= MIN_TERM_BYTES || ByteLen(normalized) >= MIN_TERM_BYTES then [normalized] else []
  }

  function QueryTerms(reading: Reading, query: string): seq<string> {
    Terms(reading, SplitWhitespace(query))
  }

  /** How many of the terms occur in the text. */
  function MatchedTerms(text: string, terms: seq<string>): nat {
    if terms == [] then 0
    else MatchedTerms(text, terms[..|terms| - 1]) + if Contains(text, terms[|terms| - 1]) then 1 else 0
  }

  function DocMatches(reading: Reading, doc: Doc, terms: seq<string>): nat {
    MatchedTerms(Normalized(reading.lower, doc.content), terms)
  }

  /** Searched messages that contain at least one term. */
  function Matching(reading: Reading, ix: Index, terms: seq<string>, exclude: Option<ThreadId>): set<Key> {
    set k | k in ix && exclude != Some(k.0) && DocMatches(reading, ix[k], terms) > 0
  }

  function Searched(ix: Index, exclude: Option<ThreadId>): set<Key> {
    set k | k in ix && exclude != Some(k.0)
  }

  /** Messages with every n-gram of the term. */
  function Candidates(reading: Reading, ix: Index, term: string): set<Key> {
    set k | k in ix && HasGrams(Normalized(reading.lower, ix[k].content), term)
  }

  predicate HasGrams(text: string, term: string) {
    forall g :: g in Grams(term) ==> g in Grams(text)
  }

  /** Some term has n-grams, and more candidates than a search verifies. */
  ghost predicate TooBroad(reading: Reading, ix: Index, terms: seq<string>) {
    exists i :: 0 <= i < |terms| && Grams(terms[i]) != [] && |Candidates(reading, ix, terms[i])| > LARGE_CANDIDATE_LIMIT
  }

  function HitKeys(hits: seq<Hit>): seq<Key> {
    seq(|hits|, i requires 0 <= i < |hits| => (hits[i].threadId, hits[i].messageId))
  }

  function HitFor(k: Key, doc: Doc, score: real): Hit {
    Hit(k.0, k.1, doc.role, doc.content, doc.createdAt, score)
  }

  /** The hits are a best selection of the matching messages, each scored with its share of the terms. */
  ghost predicate AnswersByMatch(reading: Reading, ix: Index, terms: seq<string>, limit: nat, exclude: Option<ThreadId>, hits: seq<Hit>)
    requires terms != []
  {
    && TopOf(HitKeys(hits), Matching(reading, ix, terms, exclude), MatchRank(reading, ix, terms), limit)
    && forall i :: 0 <= i < |hits| ==>
         var k := HitKeys(hits)[i];
         k in ix && hits[i] == HitFor(k, ix[k], DocMatches(reading, ix[k], terms) as real / |terms| as real)
  }

  /** The hits are the most recent messages, with score zero. */
  ghost predicate AnswersByRecency(reading: Reading, ix: Index, limit: nat, exclude: Option<ThreadId>, hits: seq<Hit>) {
    && TopOf(HitKeys(hits), Searched(ix, exclude), RecencyRank(reading, ix), limit)
    && forall i :: 0 <= i < |hits| ==> var k := HitKeys(hits)[i]; k in ix && hits[i] == HitFor(k, ix[k], 0.0)
  }

  function MatchRank(reading: Reading, ix: Index, terms: seq<string>): Key -> Rank {
    k => if k in ix then Rank(DocMatches(reading, ix[k], terms), reading.millis(ix[k].createdAt)) else Rank(0, 0)
  }

  function RecencyRank(reading: Reading, ix: Index): Key -> Rank {
    k => if k in ix then Rank(0, reading.millis(ix[k].createdAt)) else Rank(0, 0)
  }

  /** A word is searched for when it, or its normal form, has three bytes at least. */
  predicate LongEnough(reading: Reading, word: string) {
    ByteLen(word) >= 3 || ByteLen(Normalized(reading.lower, word)) >= 3
  }

  /** The terms are the normal forms of the words at the positions `from`, which are those of all long enough words, in order. */
  ghost predicate TermsFrom(reading: Reading, words: seq<string>, terms: seq<string>, from: seq<nat>) {
    && |from| == |terms|
    && (forall n :: 0 <= n < |from| ==> from[n] < |words| && terms[n] == Normalized(reading.lower, words[from[n]]))
    && (forall n :: 0 < n < |from| ==> from[n - 1] < from[n])
    && (forall k: nat :: k < |words| ==> (k in from <==> LongEnough(reading, words[k])))
  }

  lemma NoTerms(reading: Reading, words: seq<string>)
    requires words == []
    ensures TermsFrom(reading, words, Terms(reading, words), [])
  {
  }

  /** The terms with one more word. */
  lemma LastTerm(reading: Reading, words: seq<string>)
    requires words != []
    ensures var last, before := |words| - 1, Terms(reading, words[..|words| - 1]);
            Terms(reading, words) == if LongEnough(reading, words[last]) then before + [Normalized(reading.lower, words[last])] else before
  {
    hide Normalized, ByteLen;
  }

  lemma TermSkipped(reading: Reading, words: seq<string>, terms: seq<string>, before: seq<nat>)
    requires words != [] && TermsFrom(reading, words[..|words| - 1], terms, before) && !LongEnough(reading, words[|words| - 1])
    ensures TermsFrom(reading, words, terms, before)
  {
    hide Normalized, LongEnough;
    var front := words[..|words| - 1];
    forall k: nat | k < |words| ensures k in before <==> LongEnough(reading, words[k]) {
      if k < |front| {
        assert front[k] == words[k];
      }
    }
  }

  lemma TermTaken(reading: Reading, words: seq<string>, terms: seq<string>, before: seq<nat>)
    requires words != [] && TermsFrom(reading, words[..|words| - 1], terms, before) && LongEnough(reading, words[|words| - 1])
    ensures TermsFrom(reading, words, terms + [Normalized(reading.lower, words[|words| - 1])], before + [|words| - 1])
  {
    hide Normalized, LongEnough;
    var last := |words| - 1;
    var front, from := words[..last], before + [last];
    assert from[|before|] == last;
    forall k: nat | k < |words| ensures k in from <==> LongEnough(reading, words[k]) {
      assert k in from <==> k in before || k == last;
      if k < last {
        assert front[k] == words[k];
      }
    }
    forall n | 0 <= n < |before| ensures before[n] < last && terms[n] == Normalized(reading.lower, words[before[n]]) {
      assert front[before[n]] == words[before[n]];
    }
  }

  lemma {:induction false} TermsMeaning(reading: Reading, words: seq<string>) returns (from: seq<nat>)
    ensures TermsFrom(reading, words, Terms(reading, words), from)
  {
    hide Normalized, ByteLen, Terms, TermsFrom, LongEnough;
    if words == [] {
      from := [];
      NoTerms(reading, words);
    } else {
      var last := |words| - 1;
      var before := TermsMeaning(reading, words[..last]);
      LastTerm(reading, words);
      if LongEnough(reading, words[last]) {
        TermTaken(reading, words, Terms(reading, words[..last]), before);
        from := before + [last];
      } else {
        TermSkipped(reading, words, Terms(reading, words[..last]), before);
        from := before;
      }
    }
  }

  /**
   * Every word of the query that is long enough gives one term, its normal form, and no other
   * text does: the terms follow the words at `spans[from[..]]`.
   */
  lemma QueryTermsMeaning(reading: Reading, query: string) returns (spans: seq<(nat, nat)>, from: seq<nat>)
    ensures WordSpans(query, SplitWhitespace(query), spans)
    ensures TermsFrom(reading, SplitWhitespace(query), QueryTerms(reading, query), from)
  {
    spans := SplitsIntoWords(query);
    from := TermsMeaning(reading, SplitWhitespace(query));
  }

  /** A word that stands in the query and is long enough gives a term. */
  lemma WordGivesTerm(reading: Reading, query: string, i: nat, j: nat)
    requires WordAt(query, i, j) && LongEnough(reading, query[i..j])
    ensures Normalized(reading.lower, query[i..j]) in QueryTerms(reading, query)
  {
    hide WordAt, Normalized, LongEnough, Terms;
    WordRange(query, i, j);
    var spans, from := QueryTermsMeaning(reading, query);
    var k :| 0 <= k < |spans| && spans[k] == (i, j);
    assert SplitWhitespace(query)[k] == query[i..j];
    assert k in from;
    var n :| 0 <= n < |from| && from[n] == k;
    assert QueryTerms(reading, query)[n] == Normalized(reading.lower, query[i..j]);
  }

  lemma NoTermMatches(text: string)
    ensures MatchedTerms(text, []) == 0
  {
  }

  lemma LastTermMatches(text: string, terms: seq<string>)
    requires terms != []
    ensures MatchedTerms(text, terms)
         == MatchedTerms(text, terms[..|terms| - 1]) + if Contains(text, terms[|terms| - 1]) then 1 else 0
  {
  }

  /** A text matches all of the terms exactly when it contains each, and none exactly when it contains none. */
  lemma {:induction false} MatchedTermsBounds(text: string, terms: seq<string>)
    ensures MatchedTerms(text, terms) <= |terms|
    ensures MatchedTerms(text, terms) == |terms| <==> forall t :: t in terms ==> Contains(text, t)
    ensures MatchedTerms(text, terms) == 0 <==> forall t :: t in terms ==> !Contains(text, t)
  {
    hide Contains, MatchedTerms;
    if terms == [] {
      NoTermMatches(text);
    } else {
      var front, last := terms[..|terms| - 1], terms[|terms| - 1];
      MatchedTermsBounds(text, front);
      LastTermMatches(text, terms);
      LastOrBefore(terms);
    }
  }

  /** The places of the list whose term occurs in the text. */
  function MatchedPlaces(text: string, terms: seq<string>): set<nat> {
    set i: nat | i < |terms| && Contains(text, terms[i])
  }

  lemma LastPlace(text: string, terms: seq<string>)
    requires terms != []
    ensures var last := |terms| - 1;
            var before := MatchedPlaces(text, terms[..last]);
            last !in before && MatchedPlaces(text, terms) == if Contains(text, terms[last]) then before + {last} else before
  {
    hide Contains;
  }

  /** At how many places of the list a term stands that occurs in the text. */
  lemma {:induction false} MatchedTermsCount(text: string, terms: seq<string>)
    ensures MatchedTerms(text, terms) == |set i: nat | i < |terms| && Contains(text, terms[i])|
  {
    hide Contains, MatchedTerms;
    if terms == [] {
      NoTermMatches(text);
      assert MatchedPlaces(text, terms) == {};
    } else {
      MatchedTermsCount(text, terms[..|terms| - 1]);
      LastTermMatches(text, terms);
      LastPlace(text, terms);
    }
    assert MatchedPlaces(text, terms) == set i: nat | i < |terms| && Contains(text, terms[i]);
  }

  lemma LastOrBefore<T>(s: seq<T>)
    requires s != []
    ensures forall x :: x in s <==> x in s[..|s| - 1] || x == s[|s| - 1]
  {
    assert s == s[..|s| - 1] + [s[|s| - 1]];
  }

  /** A message that contains a long enough word of the query verbatim matches the query. */
  lemma VerbatimWordMatches(reading: Reading, ix: Index, query: string, exclude: Option<ThreadId>, k: Key, i: nat, j: nat)
    requires k in ix && exclude != Some(k.0)
    requires WordAt(query, i, j) && LongEnough(reading, query[i..j]) && Contains(ix[k].content, query[i..j])
    ensures k in Matching(reading, ix, QueryTerms(reading, query), exclude)
  {
    hide Normalized, Contains, MatchedTerms, QueryTerms, LongEnough, WordAt;
    var terms := QueryTerms(reading, query);
    WordRange(query, i, j);
    WordGivesTerm(reading, query, i, j);
    NormalizedContains(reading.lower, ix[k].content, query[i..j]);
    MatchedTermsBounds(Normalized(reading.lower, ix[k].content), terms);
  }

  // ---------- document table ----------

  type Docs = seq<Option<DocEntry>>

  predicate Live(docs: Docs, d: nat) {
    d < |docs| && docs[d].Some?
  }

  /** The live document has the n-gram. */
  predicate Posted(docs: Docs, g: string, d: nat) {
    Live(docs, d) && g in Grams(docs[d].value.contentNormalized)
  }

  /** Posting lists name exactly the live documents that have the n-gram. */
  ghost predicate ExactPostings(postings: PostingMap, docs: Docs) {
    NoneEmpty(postings) && forall g, d :: Lists(postings, g, d) <==> Posted(docs, g, d)
  }

  /** The reverse map is a bijection between the keys and the live documents. */
  ghost predicate ExactKeys(byMessage: map<Key, nat>, docs: Docs) {
    && (forall k :: k in byMessage ==> Live(docs, byMessage[k]) && KeyOf(docs[byMessage[k]].value) == k)
    && (forall d: nat :: Live(docs, d) ==> KeyOf(docs[d].value) in byMessage && byMessage[KeyOf(docs[d].value)] == d)
  }

  ghost predicate ReadEntries(reading: Reading, docs: Docs) {
    forall d: nat :: Live(docs, d) ==>
      && docs[d].value.contentNormalized == Normalized(reading.lower, docs[d].value.content)
      && docs[d].value.createdAtMs == reading.millis(docs[d].value.createdAt)
  }

  /** The abstract index a reverse map and a document table stand for. */
  ghost function IndexOf(byMessage: map<Key, nat>, docs: Docs): Index
    requires ExactKeys(byMessage, docs)
  {
    map k | k in byMessage :: EntryDoc(docs[byMessage[k]].value)
  }

  lemma InsertedPostings(before: PostingMap, docs: Docs, after: PostingMap, entry: DocEntry)
    requires ExactPostings(before, docs) && NoneEmpty(after)
    requires forall g, d :: Lists(after, g, d) <==> Lists(before, g, d) || (d == |docs| && g in Grams(entry.contentNormalized))
    ensures ExactPostings(after, docs + [Some(entry)])
  {
    var docs' := docs + [Some(entry)];
    forall g, d ensures Lists(after, g, d) <==> Posted(docs', g, d) {
      assert Lists(before, g, d) <==> Posted(docs, g, d);
    }
  }

  lemma InsertedKeys(byMessage: map<Key, nat>, docs: Docs, entry: DocEntry, m: Message)
    requires ExactKeys(byMessage, docs) && KeyOf(entry) !in byMessage
    requires EntryDoc(entry) == DocOf(m) && entry.messageId == m.id
    ensures var byMessage', docs' := byMessage[KeyOf(entry) := |docs|], docs + [Some(entry)];
            ExactKeys(byMessage', docs') && IndexOf(byMessage', docs') == IndexInsert(IndexOf(byMessage, docs), entry.threadId, m)
  {
    var byMessage', docs' := byMessage[KeyOf(entry) := |docs|], docs + [Some(entry)];
    forall d: nat | Live(docs', d)
      ensures KeyOf(docs'[d].value) in byMessage' && byMessage'[KeyOf(docs'[d].value)] == d
    {
      if d < |docs| {
        assert Live(docs, d) && docs'[d] == docs[d];
      }
    }
    forall k | k in byMessage' ensures Live(docs', byMessage'[k]) && KeyOf(docs'[byMessage'[k]].value) == k {
      if k != KeyOf(entry) {
        assert Live(docs, byMessage[k]);
      }
    }
  }

  /** Taking one document out of the tables. */
  lemma RemovedKeys(byMessage: map<Key, nat>, docs: Docs, d: nat)
    requires ExactKeys(byMessage, docs) && Live(docs, d)
    ensures var byMessage', docs' := byMessage - {KeyOf(docs[d].value)}, docs[d := None];
            ExactKeys(byMessage', docs') && IndexOf(byMessage', docs') == IndexOf(byMessage, docs) - {KeyOf(docs[d].value)}
  {
    var byMessage', docs' := byMessage - {KeyOf(docs[d].value)}, docs[d := None];
    forall e: nat | Live(docs', e)
      ensures KeyOf(docs'[e].value) in byMessage' && byMessage'[KeyOf(docs'[e].value)] == e
    {
      assert Live(docs, e) && docs'[e] == docs[e];
    }
    forall k | k in byMessage' ensures Live(docs', byMessage'[k]) && KeyOf(docs'[byMessage'[k]].value) == k {
      assert Live(docs, byMessage[k]) && Live(docs, d);
    }
  }

  lemma RemovedPostings(before: PostingMap, docs: Docs, after: PostingMap, d: nat)
    requires ExactPostings(before, docs) && NoneEmpty(after) && Live(docs, d)
    requires forall g, e :: Lists(after, g, e) <==>
               Lists(before, g, e) && !(e == d && g in Grams(docs[d].value.contentNormalized))
    ensures ExactPostings(after, docs[d := None])
  {
    var docs' := docs[d := None];
    forall g, e ensures Lists(after, g, e) <==> Posted(docs', g, e) {
      assert Lists(before, g, e) <==> Posted(docs, g, e);
    }
  }

  lemma RemainingContents(before: map<Key, nat>, docs: Docs, after: map<Key, nat>, docs': Docs, t: ThreadId)
    requires ExactKeys(before, docs) && ExactKeys(after, docs')
    requires forall k :: k in after <==> k in before && k.0 != t
    requires forall k :: k in after ==> after[k] == before[k] && docs'[after[k]] == docs[after[k]]
    ensures IndexOf(after, docs') == IndexRemoveThread(IndexOf(before, docs), t)
  {
  }

  // ---------- candidates, counts and rankings over the document table ----------

  /** Every n-gram of the list has the document in its posting list. */
  ghost predicate AllList(postings: PostingMap, grams: seq<string>, d: nat) {
    forall j :: 0 <= j < |grams| ==> Lists(postings, grams[j], d)
  }

  lemma AllListOne(postings: PostingMap, grams: seq<string>, i: nat, d: nat)
    requires i < |grams|
    ensures AllList(postings, grams[..i + 1], d) <==> AllList(postings, grams[..i], d) && Lists(postings, grams[i], d)
  {
    assert grams[..i + 1] == grams[..i] + [grams[i]];
  }

  ghost predicate IsCandidate(docs: Docs, term: string, d: nat) {
    Live(docs, d) && HasGrams(docs[d].value.contentNormalized, term)
  }

  lemma AllListMeaning(postings: PostingMap, docs: Docs, term: string, d: nat)
    requires ExactPostings(postings, docs) && Grams(term) != []
    ensures AllList(postings, Grams(term), d) <==> IsCandidate(docs, term, d)
  {
    var grams := Grams(term);
    hide Grams;
    if AllList(postings, grams, d) {
      assert Lists(postings, grams[0], d) && Posted(docs, grams[0], d);
      forall g | g in grams ensures g in Grams(docs[d].value.contentNormalized) {
        var j :| 0 <= j < |grams| && grams[j] == g;
        assert Lists(postings, grams[j], d) && Posted(docs, grams[j], d);
      }
    }
    if IsCandidate(docs, term, d) {
      forall j | 0 <= j < |grams| ensures Lists(postings, grams[j], d) {
        assert grams[j] in grams && Posted(docs, grams[j], d);
      }
    }
  }

  /** The keys of some live documents, in order. */
  ghost function KeysAt(docs: Docs, ids: seq<nat>): (keys: seq<Key>)
    requires forall i :: 0 <= i < |ids| ==> Live(docs, ids[i])
    ensures |keys| == |ids|
  {
    seq(|ids|, i requires 0 <= i < |ids| && Live(docs, ids[i]) => KeyOf(docs[ids[i]].value))
  }

  lemma KeysDistinct(byMessage: map<Key, nat>, docs: Docs, ids: seq<nat>)
    requires ExactKeys(byMessage, docs)
    requires forall i :: 0 <= i < |ids| ==> Live(docs, ids[i])
    requires forall i, j :: 0 <= i < j < |ids| ==> ids[i] != ids[j]
    ensures forall i, j :: 0 <= i < j < |ids| ==> KeysAt(docs, ids)[i] != KeysAt(docs, ids)[j]
  {
    forall i, j | 0 <= i < j < |ids| ensures KeysAt(docs, ids)[i] != KeysAt(docs, ids)[j] {
      assert byMessage[KeyOf(docs[ids[i]].value)] == ids[i] && byMessage[KeyOf(docs[ids[j]].value)] == ids[j];
    }
  }

  /** There are as many candidate documents as candidate messages. */
  lemma CandidateCount(reading: Reading, byMessage: map<Key, nat>, docs: Docs, term: string, ids: seq<nat>)
    requires ExactKeys(byMessage, docs) && ReadEntries(reading, docs) && Ascending(ids)
    requires forall d :: d in ids <==> IsCandidate(docs, term, d)
    ensures |ids| == |Candidates(reading, IndexOf(byMessage, docs), term)|
  {
    hide HasGrams;
    forall i | 0 <= i < |ids| ensures Live(docs, ids[i]) {
      assert ids[i] in ids;
    }
    var keys, ix := KeysAt(docs, ids), IndexOf(byMessage, docs);
    KeysDistinct(byMessage, docs, ids);
    forall k ensures k in keys <==> k in Candidates(reading, ix, term) {
      if k in Candidates(reading, ix, term) {
        assert Live(docs, byMessage[k]) && byMessage[k] in ids;
        var i :| 0 <= i < |ids| && ids[i] == byMessage[k];
        assert keys[i] == k;
      }
      if k in keys {
        var i :| 0 <= i < |ids| && keys[i] == k;
        assert ids[i] in ids && byMessage[k] == ids[i];
      }
    }
    DistinctCount(keys, Candidates(reading, ix, term));
  }

  /** The candidate list of a term loses no document that contains it. */
  ghost predicate CoversTerm(docs: Docs, ids: seq<nat>, term: string) {
    && Ascending(ids)
    && (forall d :: d in ids ==> Live(docs, d))
    && (forall d: nat :: Live(docs, d) && Contains(docs[d].value.contentNormalized, term) ==> d in ids)
  }

  lemma CandidatesCover(docs: Docs, ids: seq<nat>, term: string)
    requires Ascending(ids) && forall d :: d in ids <==> IsCandidate(docs, term, d)
    ensures CoversTerm(docs, ids, term)
  {
    forall d: nat | Live(docs, d) && Contains(docs[d].value.contentNormalized, term) ensures d in ids {
      forall g | g in Grams(term) ensures g in Grams(docs[d].value.contentNormalized) {
        ContainsGrams(docs[d].value.contentNormalized, term, g);
      }
    }
  }

  predicate Excluded(e: DocEntry, exclude: Option<ThreadId>) {
    exclude == Some(e.threadId)
  }

  /** How many terms a live document that is not excluded matches. */
  function CountAt(docs: Docs, d: nat, terms: seq<string>, exclude: Option<ThreadId>): nat {
    if Live(docs, d) && !Excluded(docs[d].value, exclude) then MatchedTerms(docs[d].value.contentNormalized, terms) else 0
  }

  function Tally(counts: map<nat, nat>, d: nat): nat {
    if d in counts then counts[d] else 0
  }

  lemma CountOne(docs: Docs, d: nat, terms: seq<string>, i: nat, exclude: Option<ThreadId>)
    requires i < |terms|
    ensures CountAt(docs, d, terms[..i + 1], exclude) == CountAt(docs, d, terms[..i], exclude)
            + if Live(docs, d) && !Excluded(docs[d].value, exclude) && Contains(docs[d].value.contentNormalized, terms[i]) then 1 else 0
  {
    assert terms[..i + 1][..i] == terms[..i];
  }

  /** A complete ranking of a set of messages. */
  ghost predicate RanksAll(docs: Docs, ranked: seq<Ranked>, universe: set<Key>, rank: Key -> Rank) {
    && (forall x :: x in ranked ==>
          Live(docs, x.doc) && KeyOf(docs[x.doc].value) in universe && x.rank == rank(KeyOf(docs[x.doc].value)))
    && DistinctDocs(ranked)
    && (forall k :: k in universe ==> exists x :: x in ranked && Live(docs, x.doc) && KeyOf(docs[x.doc].value) == k)
  }

  ghost function RankedIds(ranked: seq<Ranked>): seq<nat> {
    seq(|ranked|, i requires 0 <= i < |ranked| => ranked[i].doc)
  }

  /** At most `limit` elements from the front. */
  function Truncated<T>(s: seq<T>, limit: nat): seq<T> {
    if |s| <= limit then s else s[..limit]
  }

  /** The sorted ranking lists every message of the universe once, best first. */
  lemma SortedRanking(byMessage: map<Key, nat>, docs: Docs, ranked: seq<Ranked>, universe: set<Key>, rank: Key -> Rank)
    requires ExactKeys(byMessage, docs) && RanksAll(docs, ranked, universe, rank)
    ensures var sorted := SortedByRank(ranked);
            && Descending(sorted)
            && (forall i :: 0 <= i < |sorted| ==> Live(docs, sorted[i].doc) && sorted[i].rank == rank(KeyOf(docs[sorted[i].doc].value)))
            && (forall i, j :: 0 <= i < j < |sorted| ==> sorted[i].doc != sorted[j].doc)
            && forall k :: k in universe <==> exists i :: 0 <= i < |sorted| && KeyOf(docs[sorted[i].doc].value) == k
  {
    SortedByRankCorrect(ranked);
    var sorted := SortedByRank(ranked);
    hide SortedByRank, ExactKeys;
    forall i | 0 <= i < |sorted| ensures sorted[i] in ranked {
      assert sorted[i] in sorted;
    }
    forall k | k in universe ensures exists i :: 0 <= i < |sorted| && KeyOf(docs[sorted[i].doc].value) == k {
      var x :| x in ranked && Live(docs, x.doc) && KeyOf(docs[x.doc].value) == k;
      assert x in sorted;
      var i :| 0 <= i < |sorted| && sorted[i] == x;
    }
  }

  /** Sorting and truncating a complete ranking gives a best selection. */
  lemma BestOfRanking(byMessage: map<Key, nat>, docs: Docs, ranked: seq<Ranked>, universe: set<Key>, rank: Key -> Rank, limit: nat, best: seq<Ranked>)
    requires ExactKeys(byMessage, docs) && RanksAll(docs, ranked, universe, rank)
    requires best == Truncated(SortedByRank(ranked), limit)
    ensures forall i :: 0 <= i < |best| ==> Live(docs, best[i].doc) && best[i].rank == rank(KeyOf(docs[best[i].doc].value))
    ensures TopOf(KeysAt(docs, RankedIds(best)), universe, rank, limit)
  {
    SortedRanking(byMessage, docs, ranked, universe, rank);
    var sorted := SortedByRank(ranked);
    hide SortedByRank, RanksAll;
    var keys := KeysAt(docs, RankedIds(sorted));
    KeysDistinct(byMessage, docs, RankedIds(sorted));
    hide ExactKeys;
    assert forall i :: 0 <= i < |keys| ==> rank(keys[i]) == sorted[i].rank;
    hide Above;
    forall k ensures k in keys <==> k in universe {
      if k in universe {
        var i :| 0 <= i < |sorted| && KeyOf(docs[sorted[i].doc].value) == k;
        assert keys[i] == k;
      }
    }
    PrefixIsTop(keys, universe, rank, limit);
    assert KeysAt(docs, RankedIds(best)) == keys[..|best|];
  }

  /** Once no document is in the first lists, none is in all of them. */
  lemma NobodyListed(postings: PostingMap, grams: seq<string>, i: nat)
    requires i <= |grams| && forall d :: !AllList(postings, grams[..i], d)
    ensures forall d :: !AllList(postings, grams, d)
  {
    forall d | AllList(postings, grams, d) ensures AllList(postings, grams[..i], d) {
      forall j | 0 <= j < i ensures Lists(postings, grams[..i][j], d) {
        assert Lists(postings, grams[j], d);
      }
    }
  }

  /** Tallies of the documents, with only positive entries kept. */
  ghost predicate Tallies(counts: map<nat, nat>, docs: Docs, terms: seq<string>, exclude: Option<ThreadId>) {
    && (forall d :: Tally(counts, d) == CountAt(docs, d, terms, exclude))
    && (forall d :: d in counts ==> counts[d] > 0)
  }

  /** The tallied documents are the matching messages. */
  lemma TalliedRanking(reading: Reading, byMessage: map<Key, nat>, docs: Docs, terms: seq<string>, exclude: Option<ThreadId>,
                       counts: map<nat, nat>, ranked: seq<Ranked>)
    requires ExactKeys(byMessage, docs) && ReadEntries(reading, docs) && Tallies(counts, docs, terms, exclude)
    requires DistinctDocs(ranked)
    requires forall d :: d in counts ==> Live(docs, d) && Ranked(d, Rank(counts[d], docs[d].value.createdAtMs)) in ranked
    requires forall x :: x in ranked ==> x.doc in counts && x.rank == Rank(counts[x.doc], docs[x.doc].value.createdAtMs)
    ensures var ix := IndexOf(byMessage, docs);
            RanksAll(docs, ranked, Matching(reading, ix, terms, exclude), MatchRank(reading, ix, terms))
  {
    var ix := IndexOf(byMessage, docs);
    hide MatchedTerms, Normalized;
    forall x | x in ranked
      ensures Live(docs, x.doc) && KeyOf(docs[x.doc].value) in Matching(reading, ix, terms, exclude)
      ensures x.rank == MatchRank(reading, ix, terms)(KeyOf(docs[x.doc].value))
    {
      assert Tally(counts, x.doc) == CountAt(docs, x.doc, terms, exclude);
      assert Live(docs, x.doc) && byMessage[KeyOf(docs[x.doc].value)] == x.doc;
    }
    forall k | k in Matching(reading, ix, terms, exclude)
      ensures exists x :: x in ranked && Live(docs, x.doc) && KeyOf(docs[x.doc].value) == k
    {
      var d := byMessage[k];
      assert Live(docs, d) && Tally(counts, d) == CountAt(docs, d, terms, exclude);
      assert Ranked(d, Rank(counts[d], docs[d].value.createdAtMs)) in ranked;
    }
  }

  /** The live documents that are not excluded are the searched messages. */
  lemma RecencyRanking(reading: Reading, byMessage: map<Key, nat>, docs: Docs, exclude: Option<ThreadId>, ranked: seq<Ranked>)
    requires ExactKeys(byMessage, docs) && ReadEntries(reading, docs) && DistinctDocs(ranked)
    requires forall d: nat :: Live(docs, d) && !Excluded(docs[d].value, exclude) ==>
               Ranked(d, Rank(0, docs[d].value.createdAtMs)) in ranked
    requires forall x :: x in ranked ==>
               Live(docs, x.doc) && !Excluded(docs[x.doc].value, exclude) && x.rank == Rank(0, docs[x.doc].value.createdAtMs)
    ensures var ix := IndexOf(byMessage, docs);
            RanksAll(docs, ranked, Searched(ix, exclude), RecencyRank(reading, ix))
  {
    var ix := IndexOf(byMessage, docs);
    forall k | k in Searched(ix, exclude)
      ensures exists x :: x in ranked && Live(docs, x.doc) && KeyOf(docs[x.doc].value) == k
    {
      var d := byMessage[k];
      assert Live(docs, d);
      assert Ranked(d, Rank(0, docs[d].value.createdAtMs)) in ranked;
    }
  }

  lemma NothingCounted(docs: Docs, exclude: Option<ThreadId>)
    ensures forall d :: CountAt(docs, d, [], exclude) == 0
  {
  }

  /** Adding one document with a new id keeps ids apart. */
  lemma DistinctExtend(s: seq<Ranked>, x: Ranked)
    requires DistinctDocs(s) && forall y :: y in s ==> y.doc != x.doc
    ensures DistinctDocs(s + [x])
  {
    forall i | 0 <= i < |s| ensures s[i].doc != x.doc {
      assert s[i] in s;
    }
  }

  /** Hits read off a best selection of documents, scored by `score`. */
  ghost predicate ReadOff(docs: Docs, best: seq<Ranked>, hits: seq<Hit>, total: nat)
    requires total > 0
  {
    |hits| == |best| && forall i :: 0 <= i < |best| ==>
      Live(docs, best[i].doc)
      && hits[i] == HitFor(KeyOf(docs[best[i].doc].value), EntryDoc(docs[best[i].doc].value), best[i].rank.matched as real / total as real)
  }

  lemma ReadOffKeys(docs: Docs, best: seq<Ranked>, hits: seq<Hit>, total: nat)
    requires total > 0 && ReadOff(docs, best, hits, total)
    requires forall i :: 0 <= i < |best| ==> Live(docs, best[i].doc)
    ensures HitKeys(hits) == KeysAt(docs, RankedIds(best))
  {
  }

  lemma MatchAnswers(reading: Reading, byMessage: map<Key, nat>, docs: Docs, terms: seq<string>, limit: nat, exclude: Option<ThreadId>,
                     ranked: seq<Ranked>, hits: seq<Hit>)
    requires ExactKeys(byMessage, docs) && terms != []
    requires var ix := IndexOf(byMessage, docs);
             RanksAll(docs, ranked, Matching(reading, ix, terms, exclude), MatchRank(reading, ix, terms))
    requires ReadOff(docs, Truncated(SortedByRank(ranked), limit), hits, |terms|)
    ensures AnswersByMatch(reading, IndexOf(byMessage, docs), terms, limit, exclude, hits)
  {
    var ix, best := IndexOf(byMessage, docs), Truncated(SortedByRank(ranked), limit);
    BestOfRanking(byMessage, docs, ranked, Matching(reading, ix, terms, exclude), MatchRank(reading, ix, terms), limit, best);
    hide SortedByRank, Truncated, RanksAll, DocMatches;
    ReadOffKeys(docs, best, hits, |terms|);
    forall i | 0 <= i < |hits|
      ensures var k := HitKeys(hits)[i];
              k in ix && hits[i] == HitFor(k, ix[k], DocMatches(reading, ix[k], terms) as real / |terms| as real)
    {
      assert Live(docs, best[i].doc) && byMessage[KeyOf(docs[best[i].doc].value)] == best[i].doc;
    }
  }

  lemma RecencyAnswers(reading: Reading, byMessage: map<Key, nat>, docs: Docs, limit: nat, exclude: Option<ThreadId>,
                       ranked: seq<Ranked>, hits: seq<Hit>)
    requires ExactKeys(byMessage, docs)
    requires var ix := IndexOf(byMessage, docs); RanksAll(docs, ranked, Searched(ix, exclude), RecencyRank(reading, ix))
    requires ReadOff(docs, Truncated(SortedByRank(ranked), limit), hits, 1)
    ensures AnswersByRecency(reading, IndexOf(byMessage, docs), limit, exclude, hits)
  {
    var ix, best := IndexOf(byMessage, docs), Truncated(SortedByRank(ranked), limit);
    BestOfRanking(byMessage, docs, ranked, Searched(ix, exclude), RecencyRank(reading, ix), limit, best);
    hide SortedByRank, Truncated, RanksAll;
    ReadOffKeys(docs, best, hits, 1);
    forall i | 0 <= i < |hits| ensures var k := HitKeys(hits)[i]; k in ix && hits[i] == HitFor(k, ix[k], 0.0) {
      assert Live(docs, best[i].doc) && byMessage[KeyOf(docs[best[i].doc].value)] == best[i].doc;
    }
  }

  class InvertedIndex {
    const reading: Reading
    var postings: PostingMap
    var docs: Docs
    var byMessage: map<Key, nat>

    ghost predicate Valid()
      reads this
    {
      ExactPostings(postings, docs) && ExactKeys(byMessage, docs) && ReadEntries(reading, docs)
    }

    /** The abstract index this one stands for. */
    ghost function Contents(): Index
      requires Valid()
      reads this
    {
      IndexOf(byMessage, docs)
    }

    constructor (reading: Reading)
      ensures Valid() && this.reading == reading && Contents() == map[]
    {
      this.reading := reading;
      postings := map[];
      docs := [];
      byMessage := map[];
    }

    /** The document is added to the posting list of each n-gram. */
    method PostAll(grams: seq<string>, docId: nat)
      requires NoneEmpty(postings)
      modifies this`postings
      ensures NoneEmpty(postings)
      ensures forall g, d :: Lists(postings, g, d) <==> Lists(old(postings), g, d) || (d == docId && g in grams)
    {
      for i := 0 to |grams|
        invariant NoneEmpty(postings)
        invariant forall g, d :: Lists(postings, g, d) <==> Lists(old(postings), g, d) || (d == docId && g in grams[..i])
      {
        var gram := grams[i];
        ghost var before := postings;
        if gram in postings {
          postings := postings[gram := postings[gram] + {docId}];
        } else {
          postings := postings[gram := {docId}];
        }
        assert grams[..i + 1] == grams[..i] + [gram];
        forall g, d ensures Lists(postings, g, d) <==> Lists(before, g, d) || (g == gram && d == docId) {
          PostLists(before, gram, docId, g, d);
        }
      }
      assert grams[..|grams|] == grams;
    }

    /** The document is taken out of them; a list that becomes empty disappears. */
    method UnpostAll(grams: seq<string>, docId: nat)
      requires NoneEmpty(postings)
      modifies this`postings
      ensures NoneEmpty(postings)
      ensures forall g, d :: Lists(postings, g, d) <==> Lists(old(postings), g, d) && !(d == docId && g in grams)
    {
      for i := 0 to |grams|
        invariant NoneEmpty(postings)
        invariant forall g, d :: Lists(postings, g, d) <==> Lists(old(postings), g, d) && !(d == docId && g in grams[..i])
      {
        var gram := grams[i];
        ghost var before := postings;
        if gram in postings {
          var posting := postings[gram] - {docId};
          if posting == {} {
            postings := postings - {gram};
          } else {
            postings := postings[gram := posting];
          }
        }
        assert grams[..i + 1] == grams[..i] + [gram];
        assert postings == Unpost(before, gram, docId);
        forall g, d ensures Lists(postings, g, d) <==> Lists(before, g, d) && !(g == gram && d == docId) {
          UnpostLists(before, gram, docId, g, d);
        }
      }
      assert grams[..|grams|] == grams;
    }

    /** A message is added unless its key is there already; nothing else changes. */
    method Insert(threadId: ThreadId, msg: Message)
      requires Valid() && |docs| < 0x1_0000_0000
      modifies this
      ensures Valid() && Contents() == IndexInsert(old(Contents()), threadId, msg)
      ensures (threadId, msg.id) in old(byMessage) ==> postings == old(postings) && docs == old(docs)
      ensures old(docs) <= docs && |docs| <= old(|docs|) + 1
    {
      var key := (threadId, msg.id);
      if key in byMessage {
        return;
      }
      var normalized := Normalize(reading.lower, msg.content);
      var docId := |docs|;
      var grams := Ngrams(normalized);
      PostAll(grams, docId);
      var entry := DocEntry(threadId, msg.id, msg.sender, msg.content, normalized, msg.createdAt, reading.millis(msg.createdAt));
      InsertedPostings(old(postings), docs, postings, entry);
      InsertedKeys(byMessage, docs, entry, msg);
      docs := docs + [Some(entry)];
      byMessage := byMessage[key := docId];
    }

    /** A tombstone is left in the place of a live document; a dead one is left alone. */
    method RemoveDoc(docId: nat)
      requires Valid()
      modifies this
      ensures Valid()
      ensures Live(old(docs), docId) ==>
                docs == old(docs)[docId := None] && Contents() == old(Contents()) - {KeyOf(old(docs)[docId].value)}
                && byMessage == old(byMessage) - {KeyOf(old(docs)[docId].value)}
      ensures !Live(old(docs), docId) ==> docs == old(docs) && Contents() == old(Contents()) && byMessage == old(byMessage)
    {
      if docId >= |docs| || docs[docId].None? {
        return;
      }
      var entry := docs[docId].value;
      var grams := Ngrams(entry.contentNormalized);
      UnpostAll(grams, docId);
      RemovedPostings(old(postings), docs, postings, docId);
      RemovedKeys(byMessage, docs, docId);
      docs := docs[docId := None];
      byMessage := byMessage - {(entry.threadId, entry.messageId)};
    }

    /** Exactly the thread's messages go. */
    method RemoveThread(threadId: ThreadId)
      requires Valid()
      modifies this
      ensures Valid() && Contents() == IndexRemoveThread(old(Contents()), threadId)
      ensures |docs| == old(|docs|)
    {
      hide ExactPostings, ReadEntries, IndexOf, IndexRemoveThread;
      var toRemove := set k | k in byMessage && k.0 == threadId :: byMessage[k];
      while toRemove != {}
        invariant Valid() && |docs| == old(|docs|)
        invariant forall k :: k in byMessage <==> k in old(byMessage) && (k.0 == threadId ==> old(byMessage)[k] in toRemove)
        invariant forall k :: k in byMessage ==>
                    byMessage[k] == old(byMessage)[k] && docs[byMessage[k]] == old(docs)[byMessage[k]]
        invariant forall d :: d in toRemove ==> Live(docs, d) && docs[d].value.threadId == threadId
        decreases |toRemove|
      {
        var d :| d in toRemove;
        var key := KeyOf(docs[d].value);
        assert key in byMessage && byMessage[key] == d;
        RemoveDoc(d);
        toRemove := toRemove - {d};
      }
      RemainingContents(old(byMessage), old(docs), byMessage, docs, threadId);
    }

    method Clear()
      modifies this
      ensures Valid() && Contents() == map[]
    {
      postings := map[];
      docs := [];
      byMessage := map[];
    }

    /** Phase 1: the live documents with every n-gram of the term, or nothing when the term has none. */
    method CandidatesForTerm(term: string) returns (candidates: Option<seq<nat>>)
      requires Valid()
      ensures candidates.None? <==> Grams(term) == []
      ensures candidates.Some? ==> Ascending(candidates.value)
                                   && forall d :: d in candidates.value <==> IsCandidate(docs, term, d)
    {
      hide ExactKeys, ReadEntries, Grams, IsCandidate, ExactPostings;
      var grams := Ngrams(term);
      if grams == [] {
        return None;
      }
      forall d: nat ensures AllList(postings, grams, d) <==> IsCandidate(docs, term, d) {
        AllListMeaning(postings, docs, term, d);
      }
      assert grams[..|grams|] == grams;
      if grams[0] !in postings {
        assert forall d :: !Lists(postings, grams[0], d);
        return Some([]);
      }
      var first := InOrder(postings[grams[0]]);
      var acc := new nat[|first|](i requires 0 <= i < |first| => first[i]);
      var len: nat := acc.Length;
      assert acc[..len] == first;
      for i := 1 to |grams|
        invariant len <= acc.Length && Ascending(acc[..len])
        invariant forall d :: d in acc[..len] <==> AllList(postings, grams[..i], d)
      {
        forall d ensures AllList(postings, grams[..i + 1], d) <==> AllList(postings, grams[..i], d) && Lists(postings, grams[i], d) {
          AllListOne(postings, grams, i, d);
        }
        if len == 0 {
          NobodyListed(postings, grams, i);
          return Some([]);
        }
        if grams[i] !in postings {
          NobodyListed(postings, grams, i + 1);
          return Some([]);
        }
        var other := InOrder(postings[grams[i]]);
        ghost var was := acc[..len];
        len := IntersectSorted(acc, len, other);
        CommonAscending(was, other);
        forall d ensures d in acc[..len] <==> d in was && d in other {
          CommonMembers(was, other, d);
        }
      }
      return Some(acc[..len]);
    }

    /** Phase 2: exact substring verification of the candidates, counted per document. */
    method CountMatches(terms: seq<string>, perTerm: seq<seq<nat>>, exclude: Option<ThreadId>) returns (counts: map<nat, nat>)
      requires |perTerm| == |terms| && forall i :: 0 <= i < |terms| ==> CoversTerm(docs, perTerm[i], terms[i])
      ensures Tallies(counts, docs, terms, exclude)
    {
      hide Contains, CountAt, CoversTerm;
      counts := map[];
      NothingCounted(docs, exclude);
      for i := 0 to |terms|
        invariant Tallies(counts, docs, terms[..i], exclude)
      {
        counts := CountTerm(terms, i, perTerm[i], exclude, counts);
      }
      assert terms[..|terms|] == terms;
    }

    method CountTerm(terms: seq<string>, i: nat, candidates: seq<nat>, exclude: Option<ThreadId>, before: map<nat, nat>)
      returns (counts: map<nat, nat>)
      requires i < |terms| && CoversTerm(docs, candidates, terms[i]) && Tallies(before, docs, terms[..i], exclude)
      ensures Tallies(counts, docs, terms[..i + 1], exclude)
    {
      hide Contains;
      counts := before;
      for c := 0 to |candidates|
        invariant forall d :: d in counts ==> counts[d] > 0
        invariant forall d :: Tally(counts, d) == CountAt(docs, d, if d in candidates[..c] then terms[..i + 1] else terms[..i], exclude)
      {
        var docId := candidates[c];
        assert docId in candidates;
        assert docId !in candidates[..c];
        assert candidates[..c + 1] == candidates[..c] + [docId];
        CountOne(docs, docId, terms, i, exclude);
        var entry := docs[docId].value;
        if exclude != Some(entry.threadId) && Contains(entry.contentNormalized, terms[i]) {
          counts := counts[docId := (if docId in counts then counts[docId] else 0) + 1];
        }
      }
      forall d ensures Tally(counts, d) == CountAt(docs, d, terms[..i + 1], exclude) {
        CountOne(docs, d, terms, i, exclude);
        assert candidates[..|candidates|] == candidates;
      }
    }

    /** Hits for the best `limit` documents of a ranking. */
    method Materialize(ranked: seq<Ranked>, limit: nat, total: nat) returns (hits: seq<Hit>)
      requires total > 0 && forall x :: x in ranked ==> Live(docs, x.doc)
      ensures ReadOff(docs, Truncated(SortedByRank(ranked), limit), hits, total)
    {
      SortedByRankCorrect(ranked);
      var sorted := SortedByRank(ranked);
      hide SortedByRank;
      var best := Truncated(sorted, limit);
      assert forall i :: 0 <= i < |best| ==> best[i] == sorted[i] && sorted[i] in sorted;
      hits := [];
      for i := 0 to |best|
        invariant |hits| == i
        invariant forall j :: 0 <= j < i ==>
                    hits[j] == HitFor(KeyOf(docs[best[j].doc].value), EntryDoc(docs[best[j].doc].value),
                                      best[j].rank.matched as real / total as real)
      {
        var entry := docs[best[i].doc].value;
        hits := hits + [Hit(entry.threadId, entry.messageId, entry.role, entry.content, entry.createdAt,
                            best[i].rank.matched as real / total as real)];
      }
    }

    method RankCounts(counts: map<nat, nat>) returns (ranked: seq<Ranked>)
      requires forall d :: d in counts ==> Live(docs, d)
      ensures DistinctDocs(ranked)
      ensures forall d :: d in counts ==> Live(docs, d) && Ranked(d, Rank(counts[d], docs[d].value.createdAtMs)) in ranked
      ensures forall x :: x in ranked ==>
                x.doc in counts && Live(docs, x.doc) && x.rank == Rank(counts[x.doc], docs[x.doc].value.createdAtMs)
    {
      ranked := [];
      var rest := counts.Keys;
      while rest != {}
        invariant rest <= counts.Keys && DistinctDocs(ranked)
        invariant forall d :: d in counts && d !in rest ==> Ranked(d, Rank(counts[d], docs[d].value.createdAtMs)) in ranked
        invariant forall x :: x in ranked ==>
                    x.doc in counts && x.doc !in rest && x.rank == Rank(counts[x.doc], docs[x.doc].value.createdAtMs)
        decreases |rest|
      {
        var d :| d in rest;
        var x := Ranked(d, Rank(counts[d], docs[d].value.createdAtMs));
        DistinctExtend(ranked, x);
        ranked := ranked + [x];
        rest := rest - {d};
      }
    }

    /** The most recent messages, when a term is too broad to be verified. */
    method RecencyFallback(exclude: Option<ThreadId>, limit: nat) returns (hits: seq<Hit>)
      requires Valid()
      ensures AnswersByRecency(reading, Contents(), limit, exclude, hits)
    {
      hide ExactPostings, AnswersByRecency;
      var ranked: seq<Ranked> := [];
      for i := 0 to |docs|
        invariant DistinctDocs(ranked)
        invariant forall d: nat :: d < i && Live(docs, d) && !Excluded(docs[d].value, exclude) ==>
                    Ranked(d, Rank(0, docs[d].value.createdAtMs)) in ranked
        invariant forall x :: x in ranked ==>
                    x.doc < i && Live(docs, x.doc) && !Excluded(docs[x.doc].value, exclude)
                    && x.rank == Rank(0, docs[x.doc].value.createdAtMs)
      {
        if docs[i].Some? && !Excluded(docs[i].value, exclude) {
          var x := Ranked(i, Rank(0, docs[i].value.createdAtMs));
          DistinctExtend(ranked, x);
          ranked := ranked + [x];
        }
      }
      RecencyRanking(reading, byMessage, docs, exclude, ranked);
      hits := Materialize(ranked, limit, 1);
      RecencyAnswers(reading, byMessage, docs, limit, exclude, ranked, hits);
    }

    method LiveIds() returns (ids: seq<nat>)
      ensures Ascending(ids) && forall d :: d in ids <==> Live(docs, d)
    {
      ids := [];
      for i := 0 to |docs|
        invariant Ascending(ids) && forall d: nat :: d in ids <==> d < i && Live(docs, d)
      {
        if docs[i].Some? {
          assert forall j :: 0 <= j < |ids| ==> ids[j] in ids;
          ids := ids + [i];
        }
      }
    }

    method BuildTerms(query: string) returns (terms: seq<string>)
      ensures terms == QueryTerms(reading, query)
    {
      var words := SplitWhitespace(query);
      terms := [];
      for i := 0 to |words|
        invariant terms == Terms(reading, words[..i])
      {
        assert words[..i + 1][..i] == words[..i];
        var normalized := Normalize(reading.lower, words[i]);
        if ByteLen(words[i]) >= MIN_TERM_BYTES || ByteLen(normalized) >= MIN_TERM_BYTES {
          terms := terms + [normalized];
        }
      }
      assert words[..|words|] == words;
    }

    /** Both phases: the linear scan's answer, or the recency order when some term is too broad. */
    method Search(query: string, limit: nat, exclude: Option<ThreadId>) returns (hits: seq<Hit>)
      requires Valid()
      ensures var terms := QueryTerms(reading, query);
              if limit == 0 || terms == [] then hits == []
              else if TooBroad(reading, Contents(), terms) then AnswersByRecency(reading, Contents(), limit, exclude, hits)
              else AnswersByMatch(reading, Contents(), terms, limit, exclude, hits)
    {
      hide ExactPostings, ExactKeys, ReadEntries, Grams, IsCandidate, IndexOf, QueryTerms, AnswersByMatch, AnswersByRecency, CoversTerm, Candidates;
      if limit == 0 {
        return [];
      }
      var terms := BuildTerms(query);
      if terms == [] {
        return [];
      }
      var perTerm: seq<seq<nat>> := [];
      for i := 0 to |terms|
        invariant |perTerm| == i && forall j :: 0 <= j < i ==> CoversTerm(docs, perTerm[j], terms[j])
        invariant forall j :: 0 <= j < i && Grams(terms[j]) != [] ==>
                    |Candidates(reading, Contents(), terms[j])| <= LARGE_CANDIDATE_LIMIT
      {
        var candidates := CandidatesForTerm(terms[i]);
        var ids;
        if candidates.Some? {
          ids := candidates.value;
          CandidateCount(reading, byMessage, docs, terms[i], ids);
          CandidatesCover(docs, ids, terms[i]);
          if |ids| > LARGE_CANDIDATE_LIMIT {
            hits := RecencyFallback(exclude, limit);
            return;
          }
        } else {
          ids := LiveIds();
          AllCover(docs, ids, terms[i]);
        }
        perTerm := perTerm + [ids];
      }
      var counts := CountMatches(terms, perTerm, exclude);
      CountedLive(counts, docs, terms, exclude);
      var ranked := RankCounts(counts);
      TalliedRanking(reading, byMessage, docs, terms, exclude, counts, ranked);
      hits := Materialize(ranked, limit, |terms|);
      MatchAnswers(reading, byMessage, docs, terms, limit, exclude, ranked, hits);
    }
  }

  lemma AllCover(docs: Docs, ids: seq<nat>, term: string)
    requires Ascending(ids) && forall d :: d in ids <==> Live(docs, d)
    ensures CoversTerm(docs, ids, term)
  {
  }

  lemma CountedLive(counts: map<nat, nat>, docs: Docs, terms: seq<string>, exclude: Option<ThreadId>)
    requires Tallies(counts, docs, terms, exclude)
    ensures forall d :: d in counts ==> Live(docs, d)
  {
    forall d | d in counts ensures Live(docs, d) {
      assert Tally(counts, d) == CountAt(docs, d, terms, exclude);
    }
  }
}
