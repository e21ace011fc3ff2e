/**
 * Diagnostics are kept per provenance: those of the static configuration, and a bucket for
 * each subscription provider. A snapshot projects them all, in the order of the subscriptions.
 */
module DiagnosticSnapshot {
  import opened Common
  import opened SourceTables
  import opened Projection

  type Id = nat

  datatype Bucket = Bucket(id: Id, diagnostics: seq<Diagnostic>)

  // ---- The order of the buckets ---------------------------------------------------------------

  /** The first bucket with this id, or the number of buckets. */
  function First(buckets: seq<Bucket>, id: Id): (k: nat)
    ensures k <= |buckets| && (k < |buckets| ==> buckets[k].id == id)
    ensures forall j :: 0 <= j < k ==> buckets[j].id != id
  {
    if buckets == [] || buckets[0].id == id then 0 else 1 + First(buckets[1..], id)
  }

  /** The buckets that subscriptions name, in subscription order. */
  function Listed(buckets: seq<Bucket>, subscriptions: seq<Id>): seq<nat> {
    if subscriptions == [] then []
    else
      var n := |subscriptions| - 1;
      var found, before := First(buckets, subscriptions[n]), Listed(buckets, subscriptions[..n]);
      if found < |buckets| then before + [found] else before
  }

  /** Those among the first `n` buckets that no subscription names. */
  function Unlisted(buckets: seq<Bucket>, subscriptions: seq<Id>, n: nat): seq<nat>
    requires n <= |buckets|
  {
    if n == 0 then []
    else
      var before := Unlisted(buckets, subscriptions, n - 1);
      if buckets[n - 1].id in subscriptions then before else before + [n - 1]
  }

  function Order(buckets: seq<Bucket>, subscriptions: seq<Id>): seq<nat> {
    Listed(buckets, subscriptions) + Unlisted(buckets, subscriptions, |buckets|)
  }

  /** How often a value occurs. */
  function Times(s: seq<nat>, x: nat): nat {
    if s == [] then 0 else Times(s[..|s| - 1], x) + (if s[|s| - 1] == x then 1 else 0)
  }

  lemma TimesSnoc(s: seq<nat>, x: nat, y: nat)
    ensures Times(s + [x], y) == Times(s, y) + (if x == y then 1 else 0)
  {
    assert (s + [x])[..|s|] == s;
  }

  lemma {:induction false} TimesConcat(a: seq<nat>, b: seq<nat>, x: nat)
    ensures Times(a + b, x) == Times(a, x) + Times(b, x)
  {
    if b == [] {
      assert a + b == a;
    } else {
      assert a + b == a + b[..|b| - 1] + [b[|b| - 1]];
      TimesSnoc(a + b[..|b| - 1], b[|b| - 1], x);
      TimesConcat(a, b[..|b| - 1], x);
    }
  }

  lemma {:induction false} TimesIn(s: seq<nat>, x: nat)
    ensures x in s <==> Times(s, x) > 0
  {
    if s != [] {
      TimesIn(s[..|s| - 1], x);
      assert s == s[..|s| - 1] + [s[|s| - 1]];
    }
  }

  lemma {:induction false} ListedCount(buckets: seq<Bucket>, subscriptions: seq<Id>, j: nat)
    requires j < |buckets|
    ensures Times(Listed(buckets, subscriptions), j)
            == if First(buckets, buckets[j].id) == j then Times(subscriptions, buckets[j].id) else 0
  {
    if subscriptions != [] {
      var n := |subscriptions| - 1;
      ListedCount(buckets, subscriptions[..n], j);
      TimesSnoc(Listed(buckets, subscriptions[..n]), First(buckets, subscriptions[n]), j);
    }
  }

  lemma {:induction false} UnlistedCount(buckets: seq<Bucket>, subscriptions: seq<Id>, n: nat, j: nat)
    requires j < |buckets| && n <= |buckets|
    ensures Times(Unlisted(buckets, subscriptions, n), j)
            == if j < n && buckets[j].id !in subscriptions then 1 else 0
  {
    if n > 0 {
      UnlistedCount(buckets, subscriptions, n - 1, j);
      var before := Unlisted(buckets, subscriptions, n - 1);
      if buckets[n - 1].id in subscriptions {
        assert Unlisted(buckets, subscriptions, n) == before;
      } else {
        TimesSnoc(before, n - 1, j);
      }
    }
  }

  /** How often a bucket is pushed. */
  lemma PushedCount(buckets: seq<Bucket>, subscriptions: seq<Id>, j: nat)
    requires j < |buckets|
    ensures Times(Order(buckets, subscriptions), j)
            == if buckets[j].id !in subscriptions then 1
               else if First(buckets, buckets[j].id) == j then Times(subscriptions, buckets[j].id)
               else 0
  {
    ListedCount(buckets, subscriptions, j);
    UnlistedCount(buckets, subscriptions, |buckets|, j);
    TimesConcat(Listed(buckets, subscriptions), Unlisted(buckets, subscriptions, |buckets|), j);
    TimesIn(subscriptions, buckets[j].id);
  }

  predicate PushedOnce(buckets: seq<Bucket>, subscriptions: seq<Id>, j: nat) {
    Times(Order(buckets, subscriptions), j) == 1
  }

  /** Named by one subscription, and the first bucket with its id; or named by none. */
  predicate NamedClearly(buckets: seq<Bucket>, subscriptions: seq<Id>, j: nat)
    requires j < |buckets|
  {
    buckets[j].id in subscriptions ==>
      Times(subscriptions, buckets[j].id) == 1 && First(buckets, buckets[j].id) == j
  }

  /**
   * Every bucket appears exactly once if and only if each one that a subscription names is
   * named by one subscription only and shares its id with no earlier bucket.
   */
  lemma EveryBucketOnceExactly(buckets: seq<Bucket>, subscriptions: seq<Id>)
    ensures (forall j: nat :: j < |buckets| ==> PushedOnce(buckets, subscriptions, j))
            <==> (forall j: nat :: j < |buckets| ==> NamedClearly(buckets, subscriptions, j))
  {
    forall j: nat | j < |buckets|
      ensures PushedOnce(buckets, subscriptions, j) <==> NamedClearly(buckets, subscriptions, j)
    {
      PushedCount(buckets, subscriptions, j);
    }
  }

  /** A subscription listed twice shows its provider's diagnostics twice. */
  lemma ListedTwiceShownTwice(diagnostics: seq<Diagnostic>)
    ensures Times(Order([Bucket(5, diagnostics)], [5, 5]), 0) == 2
  {
    var buckets := [Bucket(5, diagnostics)];
    PushedCount(buckets, [5, 5], 0);
    assert [5, 5][..1] == [5] && [5][..0] == [];
    assert Times([5], 5) == 1;
  }

  predicate DistinctIds(buckets: seq<Bucket>) {
    forall i, j :: 0 <= i < j < |buckets| ==> buckets[i].id != buckets[j].id
  }

  /** The diagnostics of buckets in a given order. */
  function Gather(buckets: seq<Bucket>, order: seq<nat>): seq<Diagnostic> {
    if order == [] then []
    else
      var last := order[|order| - 1];
      var before := Gather(buckets, order[..|order| - 1]);
      if last < |buckets| then before + buckets[last].diagnostics else before
  }

  lemma GatherSnoc(buckets: seq<Bucket>, order: seq<nat>, j: nat)
    requires j < |buckets|
    ensures Gather(buckets, order + [j]) == Gather(buckets, order) + buckets[j].diagnostics
  {
    assert (order + [j])[..|order|] == order;
  }

  /** One more bucket behind what was gathered behind `before`. */
  lemma GatherNext(before: seq<Diagnostic>, buckets: seq<Bucket>, order: seq<nat>, j: nat)
    requires j < |buckets|
    ensures before + Gather(buckets, order) + buckets[j].diagnostics == before + Gather(buckets, order + [j])
  {
    GatherSnoc(buckets, order, j);
    Associate(before, Gather(buckets, order), buckets[j].diagnostics);
  }

  lemma ListedNext(before: seq<Diagnostic>, buckets: seq<Bucket>, subscriptions: seq<Id>, n: nat)
    requires n < |subscriptions|
    ensures var order, k := Listed(buckets, subscriptions[..n]), First(buckets, subscriptions[n]);
            before + Gather(buckets, Listed(buckets, subscriptions[..n + 1]))
            == if k < |buckets| then before + Gather(buckets, order) + buckets[k].diagnostics
               else before + Gather(buckets, order)
  {
    assert subscriptions[..n + 1][..n] == subscriptions[..n];
    if First(buckets, subscriptions[n]) < |buckets| {
      GatherNext(before, buckets, Listed(buckets, subscriptions[..n]), First(buckets, subscriptions[n]));
    }
  }

  /** What is there when the first `n` buckets no subscription names are pushed one by one behind `before`. */
  function WithUnlisted(before: seq<Diagnostic>, buckets: seq<Bucket>, subscriptions: seq<Id>, n: nat): seq<Diagnostic>
    requires n <= |buckets|
  {
    if n == 0 then before
    else
      var rows := WithUnlisted(before, buckets, subscriptions, n - 1);
      if buckets[n - 1].id in subscriptions then rows else rows + buckets[n - 1].diagnostics
  }

  lemma {:induction false} UnlistedGathered(
    before: seq<Diagnostic>, buckets: seq<Bucket>, subscriptions: seq<Id>, n: nat)
    requires n <= |buckets|
    ensures WithUnlisted(before, buckets, subscriptions, n)
            == before + Gather(buckets, Unlisted(buckets, subscriptions, n))
  {
    if n > 0 {
      UnlistedGathered(before, buckets, subscriptions, n - 1);
      if buckets[n - 1].id !in subscriptions {
        GatherNext(before, buckets, Unlisted(buckets, subscriptions, n - 1), n - 1);
      }
    }
  }

  lemma {:induction false} GatherConcat(buckets: seq<Bucket>, a: seq<nat>, b: seq<nat>)
    ensures Gather(buckets, a + b) == Gather(buckets, a) + Gather(buckets, b)
    decreases |b|
  {
    if b == [] {
      assert a + b == a;
    } else {
      var front, last := b[..|b| - 1], b[|b| - 1];
      assert (a + b)[..|a + b| - 1] == a + front;
      GatherConcat(buckets, a, front);
      if last < |buckets| {
        Associate(Gather(buckets, a), Gather(buckets, front), buckets[last].diagnostics);
      }
    }
  }

  function WithBucket(buckets: seq<Bucket>, id: Id, diagnostics: seq<Diagnostic>): seq<Bucket> {
    var k := First(buckets, id);
    if k < |buckets| then buckets[k := Bucket(id, diagnostics)] else buckets + [Bucket(id, diagnostics)]
  }

  ghost predicate AreContents(ds: seq<Diagnostic>, metas: seq<seq<Source>>)
    reads set k | 0 <= k < |ds| :: ds[k].source.table
  {
    |metas| == |ds| && forall k :: 0 <= k < |ds| ==> metas[k] == ds[k].source.table.sources
  }

  /** Every recorded table holds what its source holds. */
  ghost predicate UpToDate(projector: Projector)
    reads projector, set t | 0 <= t < |projector.tables| :: projector.tables[t].source
  {
    Extends([], projector.tables)
  }

  class DiagnosticBuckets {
    var staticDiagnostics: seq<Diagnostic>
    var providers: seq<Bucket>

    /** Everything a snapshot shows, in its order. */
    function Contents(subscriptions: seq<Id>): seq<Diagnostic>
      reads this
    {
      staticDiagnostics + Gather(providers, Order(providers, subscriptions))
    }

    /** Replaces one provider's diagnostics, keeping its position; distinct ids stay distinct. */
    method ReplaceProvider(id: Id, diagnostics: seq<Diagnostic>)
      modifies this
      ensures staticDiagnostics == old(staticDiagnostics)
      ensures providers == WithBucket(old(providers), id, diagnostics)
      ensures old(DistinctIds(providers)) ==> DistinctIds(providers)
    {
      var k := FindBucket(id);
      if k < |providers| {
        providers := providers[k := Bucket(id, diagnostics)];
      } else {
        providers := providers + [Bucket(id, diagnostics)];
      }
    }

    method FindBucket(id: Id) returns (k: nat)
      ensures k == First(providers, id)
    {
      k := 0;
      while k < |providers| && providers[k].id != id
        invariant 0 <= k <= First(providers, id)
      {
        k := k + 1;
      }
    }

    ghost predicate RefsValid()
      reads this, set k | 0 <= k < |staticDiagnostics| :: staticDiagnostics[k].source.table
      reads set b, k | 0 <= b < |providers| && 0 <= k < |providers[b].diagnostics| ::
        providers[b].diagnostics[k].source.table
    {
      AllFresh(staticDiagnostics) && forall b :: 0 <= b < |providers| ==> AllFresh(providers[b].diagnostics)
    }

    method PushProvider(projector: Projector, k: nat)
      requires k < |providers| && projector.Valid() && UpToDate(projector) && RefsValid()
      modifies projector
      ensures projector.Valid() && UpToDate(projector)
      ensures Diagnostics(projector.rows) == Diagnostics(old(projector.rows)) + providers[k].diagnostics
    {
      projector.PushBucket(providers[k].diagnostics);
    }

    /** The buckets that subscriptions name. */
    method PushListed(projector: Projector, subscriptions: seq<Id>)
      requires projector.Valid() && UpToDate(projector) && RefsValid()
      modifies projector
      ensures projector.Valid() && UpToDate(projector)
      ensures Diagnostics(projector.rows)
              == Diagnostics(old(projector.rows)) + Gather(providers, Listed(providers, subscriptions))
    {
      ghost var before := Diagnostics(projector.rows);
      assert subscriptions[..0] == [];
      for n := 0 to |subscriptions|
        invariant projector.Valid() && UpToDate(projector)
        invariant Diagnostics(projector.rows) == before + Gather(providers, Listed(providers, subscriptions[..n]))
      {
        ListedNext(before, providers, subscriptions, n);
        var k := FindBucket(subscriptions[n]);
        if k < |providers| {
          PushProvider(projector, k);
        }
      }
      assert subscriptions[..|subscriptions|] == subscriptions;
    }

    /** The remaining buckets. */
    method PushUnlisted(projector: Projector, subscriptions: seq<Id>)
      requires projector.Valid() && UpToDate(projector) && RefsValid()
      modifies projector
      ensures projector.Valid() && UpToDate(projector)
      ensures Diagnostics(projector.rows)
              == Diagnostics(old(projector.rows)) + Gather(providers, Unlisted(providers, subscriptions, |providers|))
    {
      ghost var before := Diagnostics(projector.rows);
      for n := 0 to |providers|
        invariant projector.Valid() && UpToDate(projector)
        invariant Diagnostics(projector.rows) == WithUnlisted(before, providers, subscriptions, n)
      {
        if providers[n].id !in subscriptions {
          PushProvider(projector, n);
        }
      }
      UnlistedGathered(before, providers, subscriptions, |providers|);
    }

    /** Everything pushed, in snapshot order. */
    method Collect(subscriptions: seq<Id>) returns (projector: Projector)
      requires RefsValid()
      ensures fresh(projector) && projector.Valid() && UpToDate(projector)
      ensures Diagnostics(projector.rows) == Contents(subscriptions)
    {
      ghost var a, b := Listed(providers, subscriptions), Unlisted(providers, subscriptions, |providers|);
      GatherConcat(providers, a, b);
      Associate(staticDiagnostics, Gather(providers, a), Gather(providers, b));
      projector := new Projector();
      assert RefsValid();
      projector.PushBucket(staticDiagnostics);
      assert Diagnostics(projector.rows) == staticDiagnostics;
      assert RefsValid();
      PushListed(projector, subscriptions);
      assert RefsValid();
      PushUnlisted(projector, subscriptions);
    }

    method Snapshot(generation: nat, subscriptions: seq<Id>) returns (snap: Snapshot)
      requires RefsValid()
      ensures snap.generation == generation
      ensures forall metas :: AreContents(Contents(subscriptions), metas) ==>
                Faithful(Contents(subscriptions), metas, snap)
    {
      var projector := Collect(subscriptions);
      snap := projector.Finish(generation);
      FaithfulNow(projector, Contents(subscriptions), snap);
    }
  }

  lemma ContentsAreMetas(projector: Projector, ds: seq<Diagnostic>, metas: seq<seq<Source>>)
    requires projector.Valid() && UpToDate(projector) && ds == Diagnostics(projector.rows) && AreContents(ds, metas)
    ensures metas == MetasOf(projector.tables, projector.rows)
  {
    forall k | 0 <= k < |ds|
      ensures metas[k] == MetaOf(projector.tables, projector.rows[k])
    {
      assert RowOk(projector.tables, projector.rows[k]);
    }
  }

  lemma FaithfulNow(projector: Projector, ds: seq<Diagnostic>, snap: Snapshot)
    requires projector.Valid() && UpToDate(projector) && ds == Diagnostics(projector.rows)
    requires IsFinished(projector.tables, projector.rows, snap.generation, snap)
    ensures forall metas :: AreContents(ds, metas) ==> Faithful(ds, metas, snap)
  {
    FinishedIsFaithful(projector.tables, projector.rows, snap);
    forall metas | AreContents(ds, metas)
      ensures Faithful(ds, metas, snap)
    {
      ContentsAreMetas(projector, ds, metas);
    }
  }
}
