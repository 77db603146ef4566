/** Ranking search results: more matched terms first, then the more recent message. */
module Ranking {
  datatype Rank = Rank(matched: nat, millis: int)

  predicate Above(a: Rank, b: Rank) {
    a.matched > b.matched || (a.matched == b.matched && a.millis > b.millis)
  }

  datatype Ranked = Ranked(doc: nat, rank: Rank)

  ghost predicate Descending(s: seq<Ranked>) {
    forall i, j :: 0 <= i < j < |s| ==> !Above(s[j].rank, s[i].rank)
  }

  ghost predicate DistinctDocs(s: seq<Ranked>) {
    forall i, j :: 0 <= i < j < |s| ==> s[i].doc != s[j].doc
  }

  function Inserted(x: Ranked, s: seq<Ranked>): seq<Ranked> {
    if s == [] then [x]
    else if Above(x.rank, s[0].rank) then [x] + s
    else [s[0]] + Inserted(x, s[1..])
  }

  /** A stable sort, best first. */
  function SortedByRank(s: seq<Ranked>): seq<Ranked> {
    if s == [] then [] else Inserted(s[|s| - 1], SortedByRank(s[..|s| - 1]))
  }

  lemma {:induction false} InsertedMembers(x: Ranked, s: seq<Ranked>)
    ensures |Inserted(x, s)| == |s| + 1
    ensures forall y :: y in Inserted(x, s) <==> y == x || y in s
  {
    if s != [] && !Above(x.rank, s[0].rank) {
      InsertedMembers(x, s[1..]);
      assert s == [s[0]] + s[1..];
    }
  }

  lemma {:induction false} InsertedDescending(x: Ranked, s: seq<Ranked>)
    requires Descending(s)
    ensures Descending(Inserted(x, s))
  {
    if s != [] && !Above(x.rank, s[0].rank) {
      InsertedDescending(x, s[1..]);
      InsertedMembers(x, s[1..]);
      var r := Inserted(x, s[1..]);
      forall j | 0 <= j < |r| ensures !Above(r[j].rank, s[0].rank) {
        assert r[j] in r;
        if r[j] != x {
          var k :| 0 <= k < |s[1..]| && s[1..][k] == r[j];
          assert s[k + 1] == r[j];
        }
      }
    }
  }

  lemma {:induction false} InsertedDistinct(x: Ranked, s: seq<Ranked>)
    requires DistinctDocs(s) && forall y :: y in s ==> y.doc != x.doc
    ensures DistinctDocs(Inserted(x, s))
  {
    if s != [] && !Above(x.rank, s[0].rank) {
      assert forall y :: y in s[1..] ==> y in s;
      InsertedDistinct(x, s[1..]);
      InsertedMembers(x, s[1..]);
      var r := Inserted(x, s[1..]);
      forall j | 0 <= j < |r| ensures r[j].doc != s[0].doc {
        assert r[j] in r;
        if r[j] != x {
          var k :| 0 <= k < |s[1..]| && s[1..][k] == r[j];
          assert s[k + 1] == r[j];
        }
      }
    }
  }

  /** Sorting keeps exactly the elements and puts better ranks first. */
  lemma {:induction false} SortedByRankCorrect(s: seq<Ranked>)
    ensures Descending(SortedByRank(s)) && |SortedByRank(s)| == |s|
    ensures forall y :: y in SortedByRank(s) <==> y in s
    ensures DistinctDocs(s) ==> DistinctDocs(SortedByRank(s))
  {
    if s != [] {
      var front, last := s[..|s| - 1], s[|s| - 1];
      SortedByRankCorrect(front);
      var r := SortedByRank(front);
      InsertedMembers(last, r);
      InsertedDescending(last, r);
      if DistinctDocs(s) {
        forall y | y in r ensures y.doc != last.doc {
          assert y in front;
        }
        InsertedDistinct(last, r);
      }
      assert s == front + [last];
    }
  }

  /** `top` is a best selection of at most `limit` members of the universe, best first. */
  ghost predicate TopOf<K(!new)>(top: seq<K>, universe: set<K>, rank: K -> Rank, limit: nat) {
    && (forall k :: k in top ==> k in universe)
    && (forall i, j :: 0 <= i < j < |top| ==> top[i] != top[j])
    && |top| == (if |universe| <= limit then |universe| else limit)
    && (forall i, j :: 0 <= i < j < |top| ==> !Above(rank(top[j]), rank(top[i])))
    && (forall k, i :: k in universe && k !in top && 0 <= i < |top| ==> !Above(rank(k), rank(top[i])))
  }

  lemma {:induction false} DistinctCount<K>(s: seq<K>, elements: set<K>)
    requires forall k :: k in s <==> k in elements
    requires forall i, j :: 0 <= i < j < |s| ==> s[i] != s[j]
    ensures |s| == |elements|
  {
    if s == [] {
      assert elements == {};
    } else {
      var front, last := s[..|s| - 1], s[|s| - 1];
      assert s == front + [last];
      DistinctCount(front, elements - {last});
    }
  }

  /** Truncating a complete ranking leaves a best selection. */
  lemma PrefixIsTop<K(!new)>(all: seq<K>, universe: set<K>, rank: K -> Rank, limit: nat)
    requires forall k :: k in all <==> k in universe
    requires forall i, j :: 0 <= i < j < |all| ==> all[i] != all[j]
    requires forall i, j :: 0 <= i < j < |all| ==> !Above(rank(all[j]), rank(all[i]))
    ensures TopOf(all[..if |all| <= limit then |all| else limit], universe, rank, limit)
  {
    DistinctCount(all, universe);
    var n := if |all| <= limit then |all| else limit;
    forall k, i | k in universe && k !in all[..n] && 0 <= i < n ensures !Above(rank(k), rank(all[i])) {
      var j :| 0 <= j < |all| && all[j] == k;
      assert j >= n;
    }
  }
}
