/**
 * A bounded connection listing, selected while visiting all connections once with a heap
 * whose top is the worst candidate kept.
 */
module Listing {
  import opened Common
  import opened Ranking

  // ---- The heap ----------------------------------------------------------------------------

  /** No item comes after the worst one. */
  ghost predicate IsWorst(items: multiset<Candidate>, worst: Candidate) {
    worst in items && forall c :: c in items ==> !Before(worst, c)
  }

  /** A binary heap by what it holds; its inner layout is not modelled. */
  class CandidateHeap {
    var items: seq<Candidate>

    constructor ()
      ensures items == []
    {
      items := [];
    }

    method WorstIndex() returns (k: nat)
      requires items != []
      ensures k < |items| && IsWorst(multiset(items), items[k])
    {
      k := 0;
      BeforeIrreflexive(items[0]);
      for i := 1 to |items|
        invariant k < i
        invariant forall j :: 0 <= j < i ==> !Before(items[k], items[j])
      {
        BeforeIrreflexive(items[i]);
        if Before(items[k], items[i]) {
          forall j | 0 <= j < i
            ensures !Before(items[i], items[j])
          {
            if Before(items[i], items[j]) {
              BeforeTransitive(items[k], items[i], items[j]);
            }
          }
          k := i;
        }
      }
    }

    method Peek() returns (worst: Candidate)
      requires items != []
      ensures IsWorst(multiset(items), worst)
    {
      var k := WorstIndex();
      worst := items[k];
    }

    method Pop() returns (worst: Candidate)
      requires items != []
      modifies this
      ensures IsWorst(multiset(old(items)), worst)
      ensures multiset(items) == multiset(old(items)) - multiset{worst} && |items| == |old(items)| - 1
    {
      var k := WorstIndex();
      worst := items[k];
      assert items == items[..k] + [worst] + items[k + 1..];
      items := items[..k] + items[k + 1..];
    }

    method Push(c: Candidate)
      modifies this
      ensures multiset(items) == multiset(old(items)) + multiset{c}
    {
      items := items + [c];
    }

    /** Empties the heap into a ranked listing. */
    method IntoSorted() returns (out: seq<Candidate>)
      requires DistinctIds(items)
      modifies this
      ensures out == Sorted(old(items))
    {
      out := [];
      ghost var rest := Sorted(items);
      SortedKeeps(items);
      SortedRanked(items);
      while items != []
        invariant Ranked(rest) && multiset(items) == multiset(rest) && rest + out == Sorted(old(items))
        decreases |items|
      {
        var worst := Pop();
        ghost var front := WithoutWorst(rest, worst);
        Associate(front, [worst], out);
        out := [worst] + out;
        rest := front;
      }
      NothingLeft(rest);
    }
  }

  lemma NothingLeft(s: seq<Candidate>)
    requires multiset(s) == multiset([])
    ensures s == []
  {
    assert |multiset(s)| == |s|;
  }

  lemma WithoutWorst(ranked: seq<Candidate>, worst: Candidate) returns (front: seq<Candidate>)
    requires Ranked(ranked) && IsWorst(multiset(ranked), worst)
    ensures ranked == front + [worst] && Ranked(front)
    ensures multiset(front) == multiset(ranked) - multiset{worst}
  {
    WorstIsLast(ranked, worst);
    front := DropLast(ranked);
  }

  lemma DropLast(ranked: seq<Candidate>) returns (front: seq<Candidate>)
    requires Ranked(ranked) && ranked != []
    ensures ranked == front + [ranked[|ranked| - 1]] && Ranked(front)
    ensures multiset(front) == multiset(ranked) - multiset{ranked[|ranked| - 1]}
  {
    front := ranked[..|ranked| - 1];
    WithoutLast(ranked);
    assert forall i :: 0 <= i < |front| ==> front[i] == ranked[i];
  }

  lemma WorstIsLast(ranked: seq<Candidate>, worst: Candidate)
    requires Ranked(ranked) && IsWorst(multiset(ranked), worst)
    ensures ranked != [] && worst == ranked[|ranked| - 1]
  {
    var k :| 0 <= k < |ranked| && ranked[k] == worst;
    assert ranked[|ranked| - 1] in multiset(ranked);
  }

  lemma WithoutLast(s: seq<Candidate>)
    requires s != []
    ensures multiset(s[..|s| - 1]) == multiset(s) - multiset{s[|s| - 1]}
  {
    assert s == s[..|s| - 1] + [s[|s| - 1]];
  }

  // ---- Matching ------------------------------------------------------------------------------

  datatype Entry = Entry(id: Bytes, network: string, source: string, start: int, details: string)

  datatype Query = Query(kind: string, sourceOk: string -> bool, limit: nat)

  predicate Wanted(q: Query, e: Entry) {
    && (e.network == "tcp" || e.network == "udp")
    && (q.kind == "all" || q.kind == e.network)
    && q.sourceOk(e.source)
  }

  function AsCandidate(e: Entry): Candidate { Candidate(e.start, e.network == "tcp", e.id, e.details) }

  function Matching(q: Query, entries: seq<Entry>): seq<Candidate> {
    if entries == [] then []
    else
      var n := |entries| - 1;
      var before := Matching(q, entries[..n]);
      if Wanted(q, entries[n]) then before + [AsCandidate(entries[n])] else before
  }

  function Only(s: seq<Candidate>, tcp: bool): seq<Candidate> {
    if s == [] then []
    else
      var before, c := Only(s[..|s| - 1], tcp), s[|s| - 1];
      if c.tcp == tcp then before + [c] else before
  }

  lemma {:induction false} OnlySplits(s: seq<Candidate>)
    ensures |Only(s, true)| + |Only(s, false)| == |s|
  {
    if s != [] {
      OnlySplits(s[..|s| - 1]);
    }
  }

  lemma OnlySnoc(s: seq<Candidate>, c: Candidate, tcp: bool)
    ensures Only(s + [c], tcp) == if c.tcp == tcp then Only(s, tcp) + [c] else Only(s, tcp)
  {
    assert (s + [c])[..|s|] == s;
  }

  ghost predicate DistinctEntries(entries: seq<Entry>) {
    forall i, j :: 0 <= i < j < |entries| ==> entries[i].id != entries[j].id
  }

  lemma {:induction false} MatchingFrom(q: Query, entries: seq<Entry>, c: Candidate)
    requires c in Matching(q, entries)
    ensures exists i :: 0 <= i < |entries| && Wanted(q, entries[i]) && AsCandidate(entries[i]) == c
  {
    var n := |entries| - 1;
    if c in Matching(q, entries[..n]) {
      MatchingFrom(q, entries[..n], c);
    }
  }

  lemma {:induction false} MatchingDistinct(q: Query, entries: seq<Entry>)
    requires DistinctEntries(entries)
    ensures DistinctIds(Matching(q, entries))
  {
    if entries != [] {
      var n := |entries| - 1;
      MatchingDistinct(q, entries[..n]);
      var before := Matching(q, entries[..n]);
      forall i | 0 <= i < |before|
        ensures before[i].id != entries[n].id
      {
        MatchingFrom(q, entries[..n], before[i]);
      }
    }
  }

  // ---- One visited connection -------------------------------------------------------------------

  /** The candidates a bounded listing keeps. */
  function Best(s: seq<Candidate>, limit: nat): seq<Candidate> { Take(Sorted(s), limit) }

  lemma BestRanked(s: seq<Candidate>, limit: nat)
    requires DistinctIds(s)
    ensures Ranked(Best(s, limit)) && |Best(s, limit)| == if |s| <= limit then |s| else limit
  {
    SortedKeeps(s);
    SortedRanked(s);
  }

  lemma BestSnoc(s: seq<Candidate>, x: Candidate, limit: nat)
    requires DistinctIds(s) && limit > 0
    ensures Best(s + [x], limit) == Take(Insert(Best(s, limit), x), limit)
  {
    assert (s + [x])[..|s|] == s;
    SortedRanked(s);
    TakeInsert(Sorted(s), x, limit);
  }

  /** Room left: the candidate joins. */
  lemma BestWithRoom(s: seq<Candidate>, x: Candidate, limit: nat)
    requires DistinctIds(s) && |Best(s, limit)| < limit
    ensures multiset(Best(s + [x], limit)) == multiset(Best(s, limit)) + multiset{x}
  {
    BestSnoc(s, x, limit);
    InsertKeeps(Best(s, limit), x);
  }

  /** Full: the candidate is refused exactly when it is not before the worst one kept. */
  lemma BestWhenFull(s: seq<Candidate>, x: Candidate, limit: nat, worst: Candidate)
    requires DistinctIds(s) && |Best(s, limit)| == limit > 0 && IsWorst(multiset(Best(s, limit)), worst)
    ensures !Before(x, worst) ==> Best(s + [x], limit) == Best(s, limit)
    ensures Before(x, worst) ==>
              multiset(Best(s + [x], limit)) == multiset(Best(s, limit)) - multiset{worst} + multiset{x}
  {
    BestRanked(s, limit);
    BestSnoc(s, x, limit);
    var best := Best(s, limit);
    WorstIsLast(best, worst);
    if Before(x, worst) {
      InsertAhead(best, x, limit);
      InsertKeeps(best[..limit - 1], x);
      WithoutLast(best);
    } else {
      InsertBehind(best, x, limit);
    }
  }

  /** What is left out is behind everything listed. */
  lemma LeftOutIsWorse(s: seq<Candidate>, limit: nat, listed: Candidate, other: Candidate)
    requires DistinctIds(s) && listed in Best(s, limit) && other in s && other !in Best(s, limit)
    ensures Before(listed, other)
  {
    SortedKeeps(s);
    SortedRanked(s);
    assert other in multiset(Sorted(s));
    var i :| 0 <= i < |Sorted(s)| && Sorted(s)[i] == other;
    var k :| 0 <= k < |Best(s, limit)| && Best(s, limit)[k] == listed;
    assert forall t :: 0 <= t < |Best(s, limit)| ==> Best(s, limit)[t] == Sorted(s)[t];
    assert k < i;
  }

  // ---- The listing -----------------------------------------------------------------------------------

  datatype Response = Response(truncated: bool, tcp: seq<Candidate>, udp: seq<Candidate>, totalTcp: nat, totalUdp: nat)

  method VisitOne(q: Query, heap: CandidateHeap, e: Entry, ghost seen: seq<Candidate>)
    requires Wanted(q, e) && q.limit > 0 && DistinctIds(seen)
    requires multiset(heap.items) == multiset(Best(seen, q.limit))
    modifies heap
    ensures multiset(heap.items) == multiset(Best(seen + [AsCandidate(e)], q.limit))
  {
    BestRanked(seen, q.limit);
    assert |heap.items| == |multiset(heap.items)| == |multiset(Best(seen, q.limit))| == |Best(seen, q.limit)|;
    if |heap.items| == q.limit {
      var worst := heap.Peek();
      BestWhenFull(seen, AsCandidate(e), q.limit, worst);
      IdTotal(e.id, worst.id);
      if e.start < worst.observed || (e.start == worst.observed && !IdLess(e.id, worst.id)) {
        return;
      }
      var popped := heap.Pop();
      WorstIsLast(Best(seen, q.limit), worst);
      WorstIsLast(Best(seen, q.limit), popped);
    } else {
      BestWithRoom(seen, AsCandidate(e), q.limit);
    }
    heap.Push(AsCandidate(e));
  }

  /** Visits every connection once, counting matches and keeping the best. */
  method SelectBest(q: Query, entries: seq<Entry>) returns (heap: CandidateHeap, totalTcp: nat, totalUdp: nat)
    requires q.limit > 0 && DistinctEntries(entries)
    ensures fresh(heap) && multiset(heap.items) == multiset(Best(Matching(q, entries), q.limit))
    ensures totalTcp == |Only(Matching(q, entries), true)| && totalUdp == |Only(Matching(q, entries), false)|
  {
    totalTcp, totalUdp := 0, 0;
    heap := new CandidateHeap();
    ghost var seen: seq<Candidate> := [];
    assert entries[..0] == [];
    for n := 0 to |entries|
      invariant seen == Matching(q, entries[..n]) && DistinctIds(seen)
      invariant fresh(heap) && multiset(heap.items) == multiset(Best(seen, q.limit))
      invariant totalTcp == |Only(seen, true)| && totalUdp == |Only(seen, false)|
    {
      var e := entries[n];
      MatchingStep(q, entries, n);
      if Wanted(q, e) {
        OnlySnoc(seen, AsCandidate(e), true);
        OnlySnoc(seen, AsCandidate(e), false);
        if e.network == "tcp" {
          totalTcp := totalTcp + 1;
        } else {
          totalUdp := totalUdp + 1;
        }
        VisitOne(q, heap, e, seen);
        seen := seen + [AsCandidate(e)];
      }
    }
    assert entries[..|entries|] == entries;
  }

  lemma MatchingStep(q: Query, entries: seq<Entry>, n: nat)
    requires DistinctEntries(entries) && n < |entries|
    ensures var seen := Matching(q, entries[..n]);
            Matching(q, entries[..n + 1]) == if Wanted(q, entries[n]) then seen + [AsCandidate(entries[n])] else seen
    ensures DistinctIds(Matching(q, entries[..n + 1]))
  {
    assert entries[..n + 1][..n] == entries[..n];
    MatchingDistinct(q, entries[..n + 1]);
  }

  /** Two listings of the same distinct candidates sort to the same listing. */
  lemma SortedOfBest(s: seq<Candidate>, limit: nat, items: seq<Candidate>)
    requires DistinctIds(s) && multiset(items) == multiset(Best(s, limit))
    ensures DistinctIds(items) && Sorted(items) == Best(s, limit)
  {
    BestRanked(s, limit);
    SortedKeeps(items);
    RankedDistinct(s, limit, items);
    SortedRanked(items);
    RankedUnique(Sorted(items), Best(s, limit));
  }

  lemma PrefixIsPart(s: seq<Candidate>, n: nat)
    requires n <= |s|
    ensures multiset(s[..n]) <= multiset(s)
  {
    assert s == s[..n] + s[n..];
  }

  lemma BestIsPart(s: seq<Candidate>, limit: nat)
    ensures multiset(Best(s, limit)) <= multiset(s)
  {
    SortedKeeps(s);
    if |s| > limit {
      PrefixIsPart(Sorted(s), limit);
    }
  }

  lemma RankedDistinct(s: seq<Candidate>, limit: nat, items: seq<Candidate>)
    requires DistinctIds(s) && multiset(items) == multiset(Best(s, limit))
    ensures DistinctIds(items)
  {
    BestIsPart(s, limit);
    PartDistinct(s, items);
  }

  lemma PartDistinct(s: seq<Candidate>, part: seq<Candidate>)
    requires DistinctIds(s) && multiset(part) <= multiset(s)
    ensures DistinctIds(part)
  {
    forall i, j | 0 <= i < j < |part|
      ensures part[i].id != part[j].id
    {
      assert part[i] in multiset(s) && part[j] in multiset(s);
      if part[i] == part[j] {
        AtLeastTwice(part, i, j);
        AtMostOnce(s, part[i]);
      }
    }
  }

  lemma AtLeastTwice(s: seq<Candidate>, i: nat, j: nat)
    requires i < j < |s| && s[i] == s[j]
    ensures multiset(s)[s[i]] >= 2
  {
    assert s == s[..i] + [s[i]] + s[i + 1..j] + [s[j]] + s[j + 1..];
  }

  lemma {:induction false} AtMostOnce(s: seq<Candidate>, c: Candidate)
    requires DistinctIds(s)
    ensures multiset(s)[c] <= 1
  {
    if s != [] {
      var front, last := s[..|s| - 1], s[|s| - 1];
      AtMostOnce(front, c);
      assert s == front + [last];
      if last == c {
        assert c !in multiset(front);
      }
    }
  }

  method SplitByNetwork(sorted: seq<Candidate>) returns (tcp: seq<Candidate>, udp: seq<Candidate>)
    ensures tcp == Only(sorted, true) && udp == Only(sorted, false)
  {
    tcp, udp := [], [];
    assert sorted[..0] == [];
    for n := 0 to |sorted|
      invariant tcp == Only(sorted[..n], true) && udp == Only(sorted[..n], false)
    {
      assert sorted[..n + 1] == sorted[..n] + [sorted[n]];
      OnlySnoc(sorted[..n], sorted[n], true);
      OnlySnoc(sorted[..n], sorted[n], false);
      if sorted[n].tcp {
        tcp := tcp + [sorted[n]];
      } else {
        udp := udp + [sorted[n]];
      }
    }
    assert sorted[..|sorted|] == sorted;
  }

  lemma {:induction false} MatchingHas(q: Query, entries: seq<Entry>, i: nat)
    requires i < |entries| && Wanted(q, entries[i])
    ensures AsCandidate(entries[i]) in Matching(q, entries)
  {
    var n := |entries| - 1;
    if i < n {
      MatchingHas(q, entries[..n], i);
    }
  }

  lemma MatchingCarriesOver(q: Query, entries: seq<Entry>, others: seq<Entry>, c: Candidate)
    requires multiset(entries) == multiset(others) && c in Matching(q, entries)
    ensures c in Matching(q, others)
  {
    MatchingFrom(q, entries, c);
    var i :| 0 <= i < |entries| && Wanted(q, entries[i]) && AsCandidate(entries[i]) == c;
    assert entries[i] in multiset(others);
    var j :| 0 <= j < |others| && others[j] == entries[i];
    MatchingHas(q, others, j);
  }

  lemma SameMembers(s: seq<Candidate>, t: seq<Candidate>)
    requires DistinctIds(s) && DistinctIds(t) && forall c :: c in s <==> c in t
    ensures multiset(s) == multiset(t)
  {
    forall c
      ensures multiset(s)[c] == multiset(t)[c]
    {
      AtMostOnce(s, c);
      AtMostOnce(t, c);
      assert c in multiset(s) <==> c in s;
      assert c in multiset(t) <==> c in t;
    }
  }

  /** Whatever order the same connections are visited in, the listing is the same. */
  lemma ListingIgnoresVisitOrder(q: Query, entries: seq<Entry>, others: seq<Entry>)
    requires multiset(entries) == multiset(others) && DistinctEntries(entries) && DistinctEntries(others)
    ensures Best(Matching(q, entries), q.limit) == Best(Matching(q, others), q.limit)
  {
    MatchingDistinct(q, entries);
    MatchingDistinct(q, others);
    forall c
      ensures c in Matching(q, entries) <==> c in Matching(q, others)
    {
      if c in Matching(q, entries) {
        MatchingCarriesOver(q, entries, others, c);
      }
      if c in Matching(q, others) {
        MatchingCarriesOver(q, others, entries, c);
      }
    }
    SameMembers(Matching(q, entries), Matching(q, others));
    VisitOrderDoesNotMatter(Matching(q, entries), Matching(q, others));
  }

  /**
   * The listing equals: filter, sort newest first with ties by id, keep the first `limit`,
   * split by network. The totals count every match, and `truncated` tells whether one was
   * left out.
   */
  method Connections(q: Query, entries: seq<Entry>) returns (response: Option<Response>)
    requires q.limit > 0 && DistinctEntries(entries)
    ensures response.None? <==> q.kind != "all" && q.kind != "tcp" && q.kind != "udp"
    ensures response.Some? ==>
              var matches := Matching(q, entries);
              && response.value.tcp == Only(Best(matches, q.limit), true)
              && response.value.udp == Only(Best(matches, q.limit), false)
              && response.value.totalTcp == |Only(matches, true)| && response.value.totalUdp == |Only(matches, false)|
              && (response.value.truncated <==> |Best(matches, q.limit)| < |matches|)
  {
    if q.kind != "all" && q.kind != "tcp" && q.kind != "udp" {
      return None;
    }
    var heap, totalTcp, totalUdp := SelectBest(q, entries);
    ghost var matches := Matching(q, entries);
    ghost var best := Best(matches, q.limit);
    MatchingDistinct(q, entries);
    SortedOfBest(matches, q.limit, heap.items);
    OnlySplits(matches);
    assert |heap.items| == |multiset(heap.items)| == |multiset(best)| == |best|;
    var truncated := totalTcp + totalUdp > |heap.items|;
    var sorted := heap.IntoSorted();
    var tcp, udp := SplitByNetwork(sorted);
    response := Some(Response(truncated, tcp, udp, totalTcp, totalUdp));
  }
}
