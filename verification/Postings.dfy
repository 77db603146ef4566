/** Posting lists of the inverted index, and the in-place intersection of sorted lists. */
module Postings {
  import opened Options
  import opened Tokenize

  type PostingMap = map<string, set<nat>>

  /** Add a document to the posting list of an n-gram. */
  function Post(p: PostingMap, g: string, d: nat): PostingMap {
    if g in p then p[g := p[g] + {d}] else p[g := {d}]
  }

  /** Take a document out of the posting list of an n-gram, and an empty list out of the map. */
  function Unpost(p: PostingMap, g: string, d: nat): PostingMap {
    if g !in p then p
    else if p[g] - {d} == {} then p - {g}
    else p[g := p[g] - {d}]
  }

  predicate Lists(p: PostingMap, g: string, d: nat) {
    g in p && d in p[g]
  }

  ghost predicate NoneEmpty(p: PostingMap) {
    forall g :: g in p ==> p[g] != {}
  }

  lemma PostLists(p: PostingMap, g: string, d: nat, h: string, e: nat)
    ensures Lists(Post(p, g, d), h, e) <==> Lists(p, h, e) || (h == g && e == d)
    ensures NoneEmpty(p) ==> NoneEmpty(Post(p, g, d))
  {
  }

  lemma UnpostLists(p: PostingMap, g: string, d: nat, h: string, e: nat)
    ensures Lists(Unpost(p, g, d), h, e) <==> Lists(p, h, e) && !(h == g && e == d)
    ensures NoneEmpty(p) ==> NoneEmpty(Unpost(p, g, d))
  {
    assert g in p && p[g] - {d} == {} ==> p[g] <= {d};
  }

  ghost predicate Ascending(s: seq<nat>) {
    forall i, j :: 0 <= i < j < |s| ==> s[i] < s[j]
  }

  method Smallest(s: set<nat>) returns (m: nat)
    requires s != {}
    ensures m in s && forall x :: x in s ==> m <= x
  {
    m :| m in s;
    var rest := s - {m};
    while rest != {}
      invariant m in s && rest <= s
      invariant forall x :: x in s && x !in rest ==> m <= x
      decreases |rest|
    {
      var x :| x in rest;
      rest := rest - {x};
      if x < m {
        m := x;
      }
    }
  }

  /** The elements of an ordered set, in order. */
  method InOrder(s: set<nat>) returns (r: seq<nat>)
    ensures Ascending(r)
    ensures forall x :: x in r <==> x in s
  {
    r := [];
    var rest := s;
    while rest != {}
      invariant Ascending(r) && rest <= s
      invariant forall x :: x in r <==> x in s && x !in rest
      invariant forall x, y :: x in r && y in rest ==> x < y
      decreases |rest|
    {
      var m := Smallest(rest);
      assert forall i :: 0 <= i < |r| ==> r[i] in r;
      r := r + [m];
      rest := rest - {m};
    }
  }

  /** The elements of one list that are in another, in their order. */
  function Common(a: seq<nat>, b: seq<nat>): seq<nat> {
    if a == [] then []
    else Common(a[..|a| - 1], b) + if a[|a| - 1] in b then [a[|a| - 1]] else []
  }

  lemma {:induction false} CommonMembers(a: seq<nat>, b: seq<nat>, x: nat)
    ensures x in Common(a, b) <==> x in a && x in b
    ensures |Common(a, b)| <= |a|
  {
    if a != [] {
      CommonMembers(a[..|a| - 1], b, x);
      assert a == a[..|a| - 1] + [a[|a| - 1]];
    }
  }

  lemma {:induction false} CommonAscending(a: seq<nat>, b: seq<nat>)
    requires Ascending(a)
    ensures Ascending(Common(a, b))
  {
    if a != [] {
      var front, last := a[..|a| - 1], a[|a| - 1];
      CommonAscending(front, b);
      var r := Common(front, b);
      forall i | 0 <= i < |r| ensures r[i] < last {
        CommonMembers(front, b, r[i]);
        assert r[i] in r;
        var k :| 0 <= k < |front| && front[k] == r[i];
        assert a[k] < a[|a| - 1];
      }
    }
  }

  /** Two-pointer merge of two ascending lists; the first is rewritten in place and cut to `write`. */
  method IntersectSorted(acc: array<nat>, len: nat, other: seq<nat>) returns (write: nat)
    requires len <= acc.Length && Ascending(acc[..len]) && Ascending(other)
    modifies acc
    ensures write <= len && acc[..write] == Common(old(acc[..len]), other)
  {
    ghost var was := acc[..len];
    var o := 0;
    write := 0;
    for read := 0 to len
      invariant write <= read && o <= |other|
      invariant acc[..write] == Common(was[..read], other)
      invariant forall k :: read <= k < len ==> acc[k] == was[k]
      invariant read < len ==> forall x :: 0 <= x < o ==> other[x] < was[read]
    {
      var target := acc[read];
      while o < |other| && other[o] < target
        invariant o <= |other|
        invariant forall x :: 0 <= x < o ==> other[x] < target
      {
        o := o + 1;
      }
      assert target in other <==> o < |other| && other[o] == target;
      assert was[..read + 1][..read] == was[..read];
      if o < |other| && other[o] == target {
        acc[write] := target;
        write := write + 1;
        o := o + 1;
      }
    }
    assert was[..len] == was;
  }
}
