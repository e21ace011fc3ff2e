/**
 * The order of a connection listing: newest first, ties by id. The order is strict and
 * total on distinct ids, so a listing is determined by the connections it lists.
 */
module Ranking {
  import opened Common

  /** Ids compare byte by byte. */
  predicate IdLess(a: Bytes, b: Bytes)
    decreases |a|
  {
    b != [] && (a == [] || a[0] < b[0] || (a[0] == b[0] && IdLess(a[1..], b[1..])))
  }

  lemma {:induction false} IdTotal(a: Bytes, b: Bytes)
    ensures IdLess(a, b) || IdLess(b, a) || a == b
    decreases |a|
  {
    if a != [] && b != [] && a[0] == b[0] {
      IdTotal(a[1..], b[1..]);
      assert a == [a[0]] + a[1..] && b == [b[0]] + b[1..];
    }
  }

  lemma {:induction false} IdTransitive(a: Bytes, b: Bytes, c: Bytes)
    requires IdLess(a, b) && IdLess(b, c)
    ensures IdLess(a, c)
    decreases |a|
  {
    if a != [] && a[0] == b[0] && b[0] == c[0] {
      IdTransitive(a[1..], b[1..], c[1..]);
    }
  }

  lemma {:induction false} IdIrreflexive(a: Bytes)
    ensures !IdLess(a, a)
    decreases |a|
  {
    if a != [] {
      IdIrreflexive(a[1..]);
    }
  }

  datatype Candidate = Candidate(observed: int, tcp: bool, id: Bytes, details: string)

  predicate Before(a: Candidate, b: Candidate) {
    a.observed > b.observed || (a.observed == b.observed && IdLess(a.id, b.id))
  }

  lemma BeforeTotal(a: Candidate, b: Candidate)
    requires a.id != b.id
    ensures Before(a, b) || Before(b, a)
  {
    IdTotal(a.id, b.id);
  }

  lemma BeforeTransitive(a: Candidate, b: Candidate, c: Candidate)
    requires Before(a, b) && Before(b, c)
    ensures Before(a, c)
  {
    if a.observed == c.observed {
      IdTransitive(a.id, b.id, c.id);
    }
  }

  lemma BeforeIrreflexive(a: Candidate)
    ensures !Before(a, a)
  {
    IdIrreflexive(a.id);
  }

  lemma BeforeAsymmetric(a: Candidate, b: Candidate)
    requires Before(a, b)
    ensures !Before(b, a)
  {
    if Before(b, a) {
      BeforeTransitive(a, b, a);
      BeforeIrreflexive(a);
    }
  }

  // ---- Sorted listings ---------------------------------------------------------------------

  ghost predicate Ranked(s: seq<Candidate>) {
    forall i, j :: 0 <= i < j < |s| ==> Before(s[i], s[j])
  }

  ghost predicate DistinctIds(s: seq<Candidate>) {
    forall i, j :: 0 <= i < j < |s| ==> s[i].id != s[j].id
  }

  /** Where a candidate belongs in a ranked listing. */
  function Place(s: seq<Candidate>, x: Candidate): (k: nat)
    ensures k <= |s| && (k < |s| ==> Before(x, s[k]))
    ensures forall i :: 0 <= i < k ==> !Before(x, s[i])
  {
    if s == [] || Before(x, s[0]) then 0 else 1 + Place(s[1..], x)
  }

  function Insert(s: seq<Candidate>, x: Candidate): seq<Candidate> {
    s[..Place(s, x)] + [x] + s[Place(s, x)..]
  }

  /** The reference: everything, newest first, ties by id. */
  function Sorted(s: seq<Candidate>): seq<Candidate> {
    if s == [] then [] else Insert(Sorted(s[..|s| - 1]), s[|s| - 1])
  }

  function Take(s: seq<Candidate>, limit: nat): seq<Candidate> {
    if |s| <= limit then s else s[..limit]
  }

  lemma InsertKeeps(s: seq<Candidate>, x: Candidate)
    ensures multiset(Insert(s, x)) == multiset(s) + multiset{x}
    ensures |Insert(s, x)| == |s| + 1
  {
    assert s == s[..Place(s, x)] + s[Place(s, x)..];
  }

  ghost predicate Unlike(s: seq<Candidate>, x: Candidate) {
    forall i :: 0 <= i < |s| ==> s[i].id != x.id
  }

  lemma InsertRanked(s: seq<Candidate>, x: Candidate)
    requires Ranked(s) && Unlike(s, x)
    ensures Ranked(Insert(s, x))
  {
    var k, t := Place(s, x), Insert(s, x);
    forall i | 0 <= i < |s|
      ensures i < k ==> Before(s[i], x)
      ensures k <= i ==> Before(x, s[i])
    {
      if i < k {
        BeforeTotal(s[i], x);
      } else if k < i {
        BeforeTransitive(x, s[k], s[i]);
      }
    }
    assert forall i :: 0 <= i < |t| ==> t[i] == if i < k then s[i] else if i == k then x else s[i - 1];
  }

  lemma SameBest(a: seq<Candidate>, b: seq<Candidate>)
    requires Ranked(a) && Ranked(b) && multiset(a) == multiset(b) && a != [] && b != []
    ensures a[0] == b[0]
  {
    assert a[0] in multiset(b) && b[0] in multiset(a);
    var i :| 0 <= i < |b| && b[i] == a[0];
    var j :| 0 <= j < |a| && a[j] == b[0];
    if i > 0 && j > 0 {
      BeforeAsymmetric(a[0], b[0]);
    }
  }

  lemma WithoutFirst(s: seq<Candidate>)
    requires s != []
    ensures multiset(s[1..]) == multiset(s) - multiset{s[0]}
  {
    assert s == [s[0]] + s[1..];
  }

  /** A ranked listing is determined by what it lists. */
  lemma {:induction false} RankedUnique(a: seq<Candidate>, b: seq<Candidate>)
    requires Ranked(a) && Ranked(b) && multiset(a) == multiset(b)
    ensures a == b
  {
    if a == [] || b == [] {
      assert |multiset(a)| == |a| && |multiset(b)| == |b|;
    } else {
      SameBest(a, b);
      WithoutFirst(a);
      WithoutFirst(b);
      RankedUnique(a[1..], b[1..]);
      assert a == [a[0]] + a[1..] && b == [b[0]] + b[1..];
    }
  }

  lemma SortedSnoc(front: seq<Candidate>, x: Candidate)
    ensures Sorted(front + [x]) == Insert(Sorted(front), x)
  {
    assert (front + [x])[..|front|] == front;
  }

  lemma SnocKeeps(front: seq<Candidate>, sorted: seq<Candidate>, x: Candidate)
    requires multiset(sorted) == multiset(front) && |sorted| == |front|
    ensures multiset(Insert(sorted, x)) == multiset(front + [x]) && |Insert(sorted, x)| == |front + [x]|
  {
    InsertKeeps(sorted, x);
  }

  lemma {:induction false} SortedKeeps(s: seq<Candidate>)
    ensures multiset(Sorted(s)) == multiset(s) && |Sorted(s)| == |s|
  {
    if s != [] {
      var front, x := s[..|s| - 1], s[|s| - 1];
      assert s == front + [x];
      SortedKeeps(front);
      SortedSnoc(front, x);
      SnocKeeps(front, Sorted(front), x);
    }
  }

  lemma UnlikeSorted(s: seq<Candidate>, x: Candidate)
    requires Unlike(s, x)
    ensures Unlike(Sorted(s), x)
  {
    SortedKeeps(s);
    forall i | 0 <= i < |Sorted(s)|
      ensures Sorted(s)[i].id != x.id
    {
      assert Sorted(s)[i] in multiset(s);
    }
  }

  lemma {:induction false} SortedRanked(s: seq<Candidate>)
    requires DistinctIds(s)
    ensures Ranked(Sorted(s))
  {
    if s != [] {
      var front, x := s[..|s| - 1], s[|s| - 1];
      SortedRanked(front);
      UnlikeSorted(front, x);
      InsertRanked(Sorted(front), x);
    }
  }

  /** The order in which connections are visited does not matter. */
  lemma VisitOrderDoesNotMatter(s: seq<Candidate>, t: seq<Candidate>)
    requires multiset(s) == multiset(t) && DistinctIds(s) && DistinctIds(t)
    ensures Sorted(s) == Sorted(t)
  {
    SortedKeeps(s);
    SortedKeeps(t);
    SortedRanked(s);
    SortedRanked(t);
    RankedUnique(Sorted(s), Sorted(t));
  }

  // ---- Keeping only the best --------------------------------------------------------------------

  /** A candidate that is not before the last of a full listing is left out. */
  lemma InsertBehind(s: seq<Candidate>, x: Candidate, limit: nat)
    requires |s| >= limit > 0 && Ranked(s) && !Before(x, s[limit - 1])
    ensures Take(Insert(s, x), limit) == s[..limit]
  {
    if Place(s, x) < limit - 1 {
      BeforeTransitive(x, s[Place(s, x)], s[limit - 1]);
    }
    assert Place(s, x) >= limit;
    assert Insert(s, x)[..limit] == s[..limit];
  }

  /** One that is takes the last one's room. */
  lemma InsertAhead(s: seq<Candidate>, x: Candidate, limit: nat)
    requires |s| >= limit > 0 && Ranked(s) && Before(x, s[limit - 1])
    ensures Take(Insert(s, x), limit) == Insert(s[..limit - 1], x)
  {
    var k := Place(s, x);
    assert k <= limit - 1;
    PlaceIs(s[..limit - 1], x, k);
    var l, r := Insert(s, x)[..limit], Insert(s[..limit - 1], x);
    assert |l| == |r| == limit;
    assert forall i :: 0 <= i < limit ==> l[i] == r[i];
  }

  lemma PlaceIs(s: seq<Candidate>, x: Candidate, k: nat)
    requires k <= |s| && (forall i :: 0 <= i < k ==> !Before(x, s[i])) && (k < |s| ==> Before(x, s[k]))
    ensures Place(s, x) == k
  {
  }

  /** Dropping everything beyond the limit before or after an insertion is the same. */
  lemma TakeInsert(s: seq<Candidate>, x: Candidate, limit: nat)
    requires Ranked(s) && limit > 0
    ensures Take(Insert(s, x), limit) == Take(Insert(Take(s, limit), x), limit)
  {
    if |s| > limit {
      var t := s[..limit];
      assert t[limit - 1] == s[limit - 1];
      if Before(x, s[limit - 1]) {
        InsertAhead(s, x, limit);
        InsertAhead(t, x, limit);
        assert t[..limit - 1] == s[..limit - 1];
      } else {
        InsertBehind(s, x, limit);
        InsertBehind(t, x, limit);
      }
    }
  }
}
