/**
 * Append-only tables of configuration sources, where an included file points at the file
 * that includes it, and the marking of a source together with its ancestors.
 */
module SourceTables {
  import opened Common

  datatype Source = Source(path: Option<string>, parent: Option<nat>)

  /** A parent comes before its child. */
  ghost predicate ParentBefore(m: seq<Source>, i: nat)
    requires i < |m|
  {
    m[i].parent.Some? ==> m[i].parent.value < i
  }

  ghost predicate Ordered(m: seq<Source>) {
    forall i {:trigger ParentBefore(m, i)} :: 0 <= i < |m| ==> ParentBefore(m, i)
  }

  /** A source and its ancestors, innermost first. */
  ghost function Chain(m: seq<Source>, i: nat): seq<nat>
    requires Ordered(m) && i < |m|
    decreases i
  {
    assert ParentBefore(m, i);
    [i] + (if m[i].parent.None? then [] else Chain(m, m[i].parent.value))
  }

  lemma {:induction false} ChainKept(m: seq<Source>, n: seq<Source>, i: nat)
    requires Ordered(m) && Ordered(n) && m <= n && i < |m|
    ensures Chain(n, i) == Chain(m, i)
    decreases i
  {
    assert ParentBefore(m, i);
    if m[i].parent.Some? {
      ChainKept(m, n, m[i].parent.value);
    }
  }

  /** A source table shared by everything parsed in one attempt. Its identity is the object. */
  class DiagnosticSources {
    var sources: seq<Source>

    ghost predicate Valid()
      reads this
    {
      |sources| >= 1 && Ordered(sources)
    }

    constructor (path: Option<string>)
      ensures Valid() && sources == [Source(path, None)]
    {
      sources := [Source(path, None)];
    }

    /** Appends a source; every reference handed out before keeps its meaning. */
    method Add(path: Option<string>, parent: Option<nat>) returns (index: nat)
      requires Valid() && (parent.Some? ==> parent.value < |sources|)
      modifies this
      ensures Valid() && index == |old(sources)| && sources == old(sources) + [Source(path, parent)]
      ensures Chain(sources, index)
              == [index] + (if parent.None? then [] else old(Chain(sources, parent.value)))
      ensures forall i :: 0 <= i < |old(sources)| ==> Chain(sources, i) == old(Chain(sources, i))
    {
      index := |sources|;
      sources := sources + [Source(path, parent)];
      forall i | 0 <= i < |sources|
        ensures ParentBefore(sources, i)
      {
        assert i < index ==> ParentBefore(old(sources), i);
      }
      forall i | 0 <= i < |old(sources)|
        ensures Chain(sources, i) == old(Chain(sources, i))
      {
        ChainKept(old(sources), sources, i);
      }
    }
  }

  // ---- Marking ------------------------------------------------------------------------

  ghost predicate ParentMarked(m: seq<Source>, referenced: seq<bool>, i: nat)
    requires |m| == |referenced| && i < |m|
  {
    referenced[i] && m[i].parent.Some? ==> m[i].parent.value < i && referenced[m[i].parent.value]
  }

  /** The marks are closed under parents. */
  ghost predicate Closed(m: seq<Source>, referenced: seq<bool>)
    requires |m| == |referenced|
  {
    forall i {:trigger ParentMarked(m, referenced, i)} :: 0 <= i < |m| ==> ParentMarked(m, referenced, i)
  }

  /** A marked source in a closed table has all its ancestors marked. */
  lemma {:induction false} ClosedKeepsChain(m: seq<Source>, referenced: seq<bool>, i: nat)
    requires Ordered(m) && |m| == |referenced| && Closed(m, referenced) && i < |m| && referenced[i]
    ensures forall j :: j in Chain(m, i) ==> j < |m| && referenced[j]
    decreases i
  {
    assert ParentMarked(m, referenced, i);
    if m[i].parent.Some? {
      ClosedKeepsChain(m, referenced, m[i].parent.value);
    }
  }

  ghost predicate Marks(before: seq<bool>, after: seq<bool>, extra: seq<nat>) {
    |after| == |before| && forall j :: 0 <= j < |before| ==> (after[j] <==> before[j] || j in extra)
  }

  lemma {:induction false} ChainClosed(m: seq<Source>, i: nat, j: nat)
    requires Ordered(m) && i < |m| && j in Chain(m, i)
    ensures j <= i && (m[j].parent.Some? ==> m[j].parent.value in Chain(m, i))
    decreases i
  {
    assert ParentBefore(m, i);
    if j != i {
      ChainClosed(m, m[i].parent.value, j);
    } else if m[i].parent.Some? {
      assert Chain(m, m[i].parent.value)[0] == m[i].parent.value;
    }
  }

  lemma MarkedStaysClosed(m: seq<Source>, before: seq<bool>, after: seq<bool>, i: nat)
    requires Ordered(m) && |m| == |before| && Closed(m, before) && i < |m| && Marks(before, after, Chain(m, i))
    ensures Closed(m, after)
  {
    forall j | 0 <= j < |m|
      ensures ParentMarked(m, after, j)
    {
      assert ParentBefore(m, j) && ParentMarked(m, before, j);
      if j in Chain(m, i) {
        ChainClosed(m, i, j);
      }
    }
  }

  lemma MarkOne(before: seq<bool>, now: seq<bool>, done: seq<nat>, ordinal: nat)
    requires Marks(before, now, done) && ordinal < |now|
    ensures Marks(before, now[ordinal := true], done + [ordinal])
  {
  }

  lemma MarksAll(before: seq<bool>, now: seq<bool>, done: seq<nat>, rest: seq<nat>)
    requires Marks(before, now, done) && forall j :: j in rest ==> j < |now| && now[j]
    ensures Marks(before, now, done + rest)
  {
  }

  /**
   * Marks a source and its ancestors, stopping early at one that is marked already. Because
   * the marks were closed under parents, the early stop skips nothing.
   */
  method MarkAncestry(m: seq<Source>, before: seq<bool>, start: nat) returns (referenced: seq<bool>)
    requires Ordered(m) && |m| == |before| && Closed(m, before)
    ensures start < |m| ==> Marks(before, referenced, Chain(m, start))
    ensures start >= |m| ==> referenced == before
    ensures |referenced| == |m| && Closed(m, referenced)
  {
    referenced := before;
    var ordinal: nat := start;
    ghost var done: seq<nat> := [];
    while ordinal < |referenced|
      invariant Marks(before, referenced, done)
      invariant start >= |m| ==> ordinal == start && referenced == before
      invariant start < |m| ==> ordinal < |m| && Chain(m, start) == done + Chain(m, ordinal)
      invariant forall j :: j in done ==> ordinal < j
      decreases ordinal
    {
      if referenced[ordinal] {
        ClosedKeepsChain(m, before, ordinal);
        MarksAll(before, referenced, done, Chain(m, ordinal));
        break;
      }
      assert ParentBefore(m, ordinal);
      MarkOne(before, referenced, done, ordinal);
      referenced := referenced[ordinal := true];
      if m[ordinal].parent.None? {
        break;
      }
      Associate(done, [ordinal], Chain(m, m[ordinal].parent.value));
      done := done + [ordinal];
      ordinal := m[ordinal].parent.value;
    }
    if start < |m| {
      MarkedStaysClosed(m, before, referenced, start);
    }
  }
}
