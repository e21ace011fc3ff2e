/**
 * Node ids are derived from node content after every load. Group members that named a node
 * by the id it was stored under follow it to the derived one, all at once.
 */
module NodeIds {
  import opened Common

  type Id = nat

  const NIL: Id := 0

  /** The built-in direct and block nodes keep their ids. */
  datatype Node = Node(id: Id, builtin: bool, content: string)

  /** The hash of a node's content is not modelled. */
  type Derive = string -> Id

  function NewId(derive: Derive, n: Node): Id { if n.builtin then n.id else derive(n.content) }

  function Rederived(derive: Derive, nodes: seq<Node>): (after: seq<Node>)
    ensures |after| == |nodes|
  {
    seq(|nodes|, i requires 0 <= i < |nodes| => nodes[i].(id := NewId(derive, nodes[i])))
  }

  predicate Changed(derive: Derive, nodes: seq<Node>) {
    exists i :: 0 <= i < |nodes| && nodes[i].id != NewId(derive, nodes[i])
  }

  // ---- Which stored ids can be followed ------------------------------------------------------

  type Following = map<Id, Option<Id>>

  function Remember(derive: Derive, stored: Following, n: Node): Following {
    if n.builtin || n.id == NIL then stored
    else stored[n.id := if n.id in stored then None else Some(derive(n.content))]
  }

  function StoredIds(derive: Derive, nodes: seq<Node>): Following {
    if nodes == [] then map[]
    else Remember(derive, StoredIds(derive, nodes[..|nodes| - 1]), nodes[|nodes| - 1])
  }

  /** Node `i` was stored under `id`. */
  predicate Holds(nodes: seq<Node>, i: nat, id: Id) {
    i < |nodes| && !nodes[i].builtin && nodes[i].id == id && id != NIL
  }

  ghost predicate HeldOnce(nodes: seq<Node>, id: Id, i: nat) {
    Holds(nodes, i, id) && forall j: nat :: Holds(nodes, j, id) ==> j == i
  }

  ghost predicate HeldTwice(nodes: seq<Node>, id: Id) {
    exists i: nat, j: nat :: i < j && Holds(nodes, i, id) && Holds(nodes, j, id)
  }

  ghost predicate Held(nodes: seq<Node>, id: Id) {
    exists i: nat :: Holds(nodes, i, id)
  }

  /** A stored id is followed exactly when one node holds it, and then to that node's new id. */
  ghost predicate FollowsExactly(derive: Derive, nodes: seq<Node>, stored: Following, id: Id) {
    && (id in stored <==> Held(nodes, id))
    && (id in stored && stored[id].None? <==> HeldTwice(nodes, id))
    && (forall i: nat :: HeldOnce(nodes, id, i) ==> id in stored && stored[id] == Some(derive(nodes[i].content)))
  }

  lemma {:induction false} StoredExactly(derive: Derive, nodes: seq<Node>, id: Id)
    ensures FollowsExactly(derive, nodes, StoredIds(derive, nodes), id)
  {
    if nodes != [] {
      var n := |nodes| - 1;
      var front, last, stored := nodes[..n], nodes[n], StoredIds(derive, nodes[..n]);
      StoredExactly(derive, front, id);
      assert forall i: nat :: Holds(front, i, id) <==> Holds(nodes, i, id) && i < n;
      if Holds(nodes, n, id) {
        HeldByOneMore(nodes, id);
        if Held(front, id) {
          var i: nat :| Holds(front, i, id);
          assert Holds(nodes, i, id);
        }
      } else {
        assert Held(front, id) <==> Held(nodes, id);
        HeldTwiceBefore(nodes, id);
        forall i: nat | HeldOnce(nodes, id, i)
          ensures HeldOnce(front, id, i)
        {
          assert Holds(front, i, id);
        }
      }
    }
  }

  lemma HeldByOneMore(nodes: seq<Node>, id: Id)
    requires nodes != [] && Holds(nodes, |nodes| - 1, id)
    ensures Held(nodes, id)
    ensures HeldTwice(nodes, id) <==> Held(nodes[..|nodes| - 1], id)
  {
    var n := |nodes| - 1;
    assert forall i: nat :: Holds(nodes[..n], i, id) <==> Holds(nodes, i, id) && i < n;
  }

  lemma HeldTwiceBefore(nodes: seq<Node>, id: Id)
    requires nodes != [] && !Holds(nodes, |nodes| - 1, id)
    ensures HeldTwice(nodes, id) <==> HeldTwice(nodes[..|nodes| - 1], id)
  {
    var n := |nodes| - 1;
    assert forall i: nat :: Holds(nodes[..n], i, id) <==> Holds(nodes, i, id) && i < n;
    if HeldTwice(nodes, id) {
      var i: nat, j: nat :| i < j && Holds(nodes, i, id) && Holds(nodes, j, id);
      assert Holds(nodes[..n], i, id) && Holds(nodes[..n], j, id);
    }
  }

  // ---- Members follow their nodes --------------------------------------------------------------

  function Renamed(stored: Following, id: Id): Id {
    if id in stored && stored[id].Some? then stored[id].value else id
  }

  /** The node a member names: the first one with its id, or none. */
  function Resolve(nodes: seq<Node>, id: Id): (k: nat)
    ensures k <= |nodes| && (k < |nodes| ==> nodes[k].id == id)
    ensures forall j :: 0 <= j < k ==> nodes[j].id != id
  {
    if nodes == [] || nodes[0].id == id then 0 else 1 + Resolve(nodes[1..], id)
  }

  /** Where a member is after the renaming. */
  lemma RenamedExactly(derive: Derive, nodes: seq<Node>, id: Id)
    ensures var renamed := Renamed(StoredIds(derive, nodes), id);
            && (forall i: nat :: HeldOnce(nodes, id, i) ==> renamed == derive(nodes[i].content))
            && ((forall i: nat :: !HeldOnce(nodes, id, i)) ==> renamed == id)
  {
    StoredExactly(derive, nodes, id);
    var stored := StoredIds(derive, nodes);
    if id in stored && stored[id].Some? {
      var i: nat :| Holds(nodes, i, id);
      assert HeldOnce(nodes, id, i);
    }
  }

  /** The ids nodes were stored under are theirs alone, and set. */
  ghost predicate StoredApart(nodes: seq<Node>) {
    && (forall i :: 0 <= i < |nodes| && !nodes[i].builtin ==> nodes[i].id != NIL)
    && (forall i, j :: 0 <= i < |nodes| && 0 <= j < |nodes| && i != j && !nodes[i].builtin ==>
          nodes[i].id != nodes[j].id)
  }

  /** With ids stored apart, a member that named a node is renamed to that node's new id. */
  lemma MemberFollows(derive: Derive, nodes: seq<Node>, id: Id)
    requires StoredApart(nodes) && Resolve(nodes, id) < |nodes|
    ensures Renamed(StoredIds(derive, nodes), id) == NewId(derive, nodes[Resolve(nodes, id)])
  {
    RenamedExactly(derive, nodes, id);
    var k := Resolve(nodes, id);
    if nodes[k].builtin {
      assert forall i: nat :: !Holds(nodes, i, id);
    } else {
      assert HeldOnce(nodes, id, k);
    }
  }

  /**
   * Then the member names the same node afterwards, whatever the derived ids are and even if
   * they are the stored ids in another order, unless an earlier node derived the same id.
   */
  lemma MemberKeepsItsNodeExactly(derive: Derive, nodes: seq<Node>, id: Id)
    requires StoredApart(nodes) && Resolve(nodes, id) < |nodes|
    ensures var k := Resolve(nodes, id);
            Resolve(Rederived(derive, nodes), Renamed(StoredIds(derive, nodes), id)) == k
            <==> forall j :: 0 <= j < k ==> NewId(derive, nodes[j]) != NewId(derive, nodes[k])
  {
    MemberFollows(derive, nodes, id);
    var k, after := Resolve(nodes, id), Rederived(derive, nodes);
    assert after[k].id == NewId(derive, nodes[k]);
    assert forall j :: 0 <= j < |nodes| ==> after[j].id == NewId(derive, nodes[j]);
  }

  /** Two nodes with the same content: a member of the second names the first afterwards. */
  lemma SameContentTakesOver(derive: Derive)
    ensures var nodes := [Node(1, false, "a"), Node(2, false, "a")];
            && StoredApart(nodes) && Resolve(nodes, 2) == 1
            && Resolve(Rederived(derive, nodes), Renamed(StoredIds(derive, nodes), 2)) == 0
  {
    var nodes := [Node(1, false, "a"), Node(2, false, "a")];
    assert nodes[0].id != 2 && nodes[1].id == 2;
    MemberFollows(derive, nodes, 2);
    assert Rederived(derive, nodes)[0].id == derive("a");
  }

  /** A renamed member dangles only if it could not be followed and no node ends up with its id. */
  lemma DanglesExactly(derive: Derive, nodes: seq<Node>, id: Id)
    ensures var after, renamed := Rederived(derive, nodes), Renamed(StoredIds(derive, nodes), id);
            Resolve(after, renamed) == |nodes|
            <==> (forall i: nat :: !HeldOnce(nodes, id, i))
                 && (forall j :: 0 <= j < |nodes| ==> NewId(derive, nodes[j]) != id)
  {
    RenamedExactly(derive, nodes, id);
    var after, renamed := Rederived(derive, nodes), Renamed(StoredIds(derive, nodes), id);
    assert forall j :: 0 <= j < |nodes| ==> after[j].id == NewId(derive, nodes[j]);
    if i: nat :| HeldOnce(nodes, id, i) {
      assert after[i].id == renamed;
    }
  }

  /**
   * A member that named a node before dangles afterwards exactly if its id was unset or shared
   * by several nodes, and no node ends up with it.
   */
  lemma ResolvedMemberDanglesExactly(derive: Derive, nodes: seq<Node>, id: Id)
    requires Resolve(nodes, id) < |nodes|
    ensures var after, renamed := Rederived(derive, nodes), Renamed(StoredIds(derive, nodes), id);
            Resolve(after, renamed) == |nodes|
            <==> (id == NIL || HeldTwice(nodes, id)) && forall j :: 0 <= j < |nodes| ==> NewId(derive, nodes[j]) != id
  {
    DanglesExactly(derive, nodes, id);
    var k := Resolve(nodes, id);
    if id != NIL && !HeldTwice(nodes, id) {
      if i: nat :| Holds(nodes, i, id) {
        assert HeldOnce(nodes, id, i);
      } else {
        assert !Holds(nodes, k, id) && NewId(derive, nodes[k]) == id;
      }
    } else if HeldTwice(nodes, id) {
      var i: nat, j: nat :| i < j && Holds(nodes, i, id) && Holds(nodes, j, id);
    }
  }

  /** Two nodes stored under one id and derived away from it: their member names nothing afterwards. */
  lemma SharedIdDangles()
    ensures var nodes := [Node(7, false, "a"), Node(7, false, "b")];
            var derive := (content: string) => if content == "a" then 1 else 2;
            && Resolve(nodes, 7) == 0
            && Resolve(Rederived(derive, nodes), Renamed(StoredIds(derive, nodes), 7)) == 2
  {
    var nodes := [Node(7, false, "a"), Node(7, false, "b")];
    var derive := (content: string) => if content == "a" then 1 else 2;
    assert nodes[0].id == 7;
    assert Holds(nodes, 0, 7) && Holds(nodes, 1, 7);
    ResolvedMemberDanglesExactly(derive, nodes, 7);
  }

  // ---- Member lists --------------------------------------------------------------------------------

  /** The first occurrence of each value, in order. */
  function Deduped(s: seq<Id>): seq<Id> {
    if s == [] then []
    else
      var before, last := Deduped(s[..|s| - 1]), s[|s| - 1];
      if last in before then before else before + [last]
  }

  function RenamedAll(stored: Following, members: seq<Id>): seq<Id> {
    seq(|members|, i requires 0 <= i < |members| => Renamed(stored, members[i]))
  }

  /** Where a value first occurs. */
  function FirstAt(s: seq<Id>, x: Id): (k: nat)
    ensures k <= |s| && (k < |s| <==> x in s)
    ensures k < |s| ==> s[k] == x
    ensures forall j :: 0 <= j < k ==> s[j] != x
  {
    if s == [] || s[0] == x then 0 else 1 + FirstAt(s[1..], x)
  }

  ghost predicate SameValues(s: seq<Id>, d: seq<Id>) {
    forall x :: x in s <==> x in d
  }

  ghost predicate InFirstOrder(s: seq<Id>, d: seq<Id>) {
    forall i, j :: 0 <= i < j < |d| ==> FirstAt(s, d[i]) < FirstAt(s, d[j])
  }

  ghost predicate FirstOccurrences(s: seq<Id>, d: seq<Id>) {
    SameValues(s, d) && InFirstOrder(s, d)
  }

  lemma FirstAtPrefix(s: seq<Id>, n: nat, x: Id)
    requires n <= |s| && x in s[..n]
    ensures FirstAt(s, x) == FirstAt(s[..n], x) < n
  {
    var k := FirstAt(s[..n], x);
    assert s[k] == x;
    assert forall j :: 0 <= j < k ==> s[j] == s[..n][j];
  }

  lemma {:induction false} DedupedSameValues(s: seq<Id>)
    ensures SameValues(s, Deduped(s))
  {
    if s != [] {
      DedupedSameValues(s[..|s| - 1]);
      assert s == s[..|s| - 1] + [s[|s| - 1]];
    }
  }

  lemma FirstOrderSnoc(s: seq<Id>, d: seq<Id>, x: Id)
    requires SameValues(s, d) && InFirstOrder(s, d)
    ensures InFirstOrder(s + [x], d)
    ensures x !in d ==> InFirstOrder(s + [x], d + [x])
  {
    forall i | 0 <= i < |d|
      ensures FirstAt(s + [x], d[i]) == FirstAt(s, d[i]) < |s|
    {
      assert d[i] in d && (s + [x])[..|s|] == s;
      FirstAtPrefix(s + [x], |s|, d[i]);
    }
    if x !in d {
      assert x !in s && (s + [x])[|s|] == x;
    }
  }

  /** No value twice, none lost or added, and in the order of first occurrence. */
  lemma {:induction false} DedupedKeepsFirstOccurrences(s: seq<Id>)
    ensures FirstOccurrences(s, Deduped(s))
  {
    DedupedSameValues(s);
    if s != [] {
      var front, last := s[..|s| - 1], s[|s| - 1];
      DedupedKeepsFirstOccurrences(front);
      FirstOrderSnoc(front, Deduped(front), last);
      assert s == front + [last];
    }
  }

  lemma RenamedAllSnoc(stored: Following, members: seq<Id>, n: nat)
    requires n < |members|
    ensures RenamedAll(stored, members[..n + 1]) == RenamedAll(stored, members[..n]) + [Renamed(stored, members[n])]
  {
  }

  lemma DedupedSnoc(s: seq<Id>, x: Id)
    ensures Deduped(s + [x]) == if x in Deduped(s) then Deduped(s) else Deduped(s) + [x]
  {
    assert (s + [x])[..|s|] == s;
  }

  method FollowMembers(stored: Following, group: seq<Id>) returns (members: seq<Id>)
    ensures members == Deduped(RenamedAll(stored, group))
  {
    members := [];
    for i := 0 to |group|
      invariant members == Deduped(RenamedAll(stored, group[..i]))
    {
      RenamedAllSnoc(stored, group, i);
      DedupedSnoc(RenamedAll(stored, group[..i]), Renamed(stored, group[i]));
      var id := Renamed(stored, group[i]);
      if id !in members {
        members := members + [id];
      }
    }
    assert group[..|group|] == group;
  }

  function FollowedGroups(derive: Derive, nodes: seq<Node>, groups: seq<seq<Id>>): seq<seq<Id>> {
    if !Changed(derive, nodes) then groups
    else
      var stored := StoredIds(derive, nodes);
      seq(|groups|, g requires 0 <= g < |groups| => Deduped(RenamedAll(stored, groups[g])))
  }

  class Config {
    var nodes: seq<Node>
    var groups: seq<seq<Id>>

    /** Renames nodes one by one, remembering which stored id became which. */
    method RederiveNodes(derive: Derive) returns (stored: Following, changed: bool)
      modifies this`nodes
      ensures nodes == Rederived(derive, old(nodes))
      ensures stored == StoredIds(derive, old(nodes)) && changed == Changed(derive, old(nodes))
    {
      stored, changed := map[], false;
      ghost var before := nodes;
      assert before[..0] == [];
      for i := 0 to |nodes|
        invariant |nodes| == |before|
        invariant forall j :: 0 <= j < |nodes| ==>
          nodes[j] == if j < i then before[j].(id := NewId(derive, before[j])) else before[j]
        invariant stored == StoredIds(derive, before[..i])
        invariant changed <==> Changed(derive, before[..i])
      {
        var node := nodes[i];
        ChangedSnoc(derive, before, i);
        assert before[..i + 1][..i] == before[..i];
        if !node.builtin {
          var derived := derive(node.content);
          if node.id != NIL {
            stored := stored[node.id := if node.id in stored then None else Some(derived)];
          }
          changed := changed || node.id != derived;
          nodes := nodes[i := node.(id := derived)];
        }
      }
      assert before[..|before|] == before;
    }

    /** The members of every group follow, against the ids before. */
    method DeriveNodeIds(derive: Derive)
      modifies this
      ensures nodes == Rederived(derive, old(nodes))
      ensures groups == FollowedGroups(derive, old(nodes), old(groups))
    {
      var stored, changed := RederiveNodes(derive);
      if !changed {
        return;
      }
      for g := 0 to |groups|
        invariant |groups| == |old(groups)| && nodes == Rederived(derive, old(nodes))
        invariant forall h :: 0 <= h < |groups| ==>
          groups[h] == if h < g then Deduped(RenamedAll(stored, old(groups)[h])) else old(groups)[h]
      {
        var members := FollowMembers(stored, groups[g]);
        groups := groups[g := members];
      }
    }
  }

  lemma ChangedSnoc(derive: Derive, nodes: seq<Node>, n: nat)
    requires n < |nodes|
    ensures Changed(derive, nodes[..n + 1])
            <==> Changed(derive, nodes[..n]) || nodes[n].id != NewId(derive, nodes[n])
  {
    var shorter, longer := nodes[..n], nodes[..n + 1];
    assert forall i :: 0 <= i < n ==> shorter[i] == longer[i];
    assert longer[n] == nodes[n];
  }

  /** A second derivation finds nothing to change. */
  lemma SecondRunChangesNothing(derive: Derive, nodes: seq<Node>, groups: seq<seq<Id>>)
    ensures var after := Rederived(derive, nodes);
            && Rederived(derive, after) == after
            && FollowedGroups(derive, after, groups) == groups
  {
    var after := Rederived(derive, nodes);
    assert forall i :: 0 <= i < |after| ==> NewId(derive, after[i]) == after[i].id;
  }

  /**
   * In a group, every member that resolved still has its node among the members, and the
   * members are the renamed ones in order of first occurrence.
   */
  lemma GroupFollows(derive: Derive, nodes: seq<Node>, groups: seq<seq<Id>>, g: nat)
    requires g < |groups| && Changed(derive, nodes)
    ensures |FollowedGroups(derive, nodes, groups)| == |groups|
    ensures FirstOccurrences(RenamedAll(StoredIds(derive, nodes), groups[g]), FollowedGroups(derive, nodes, groups)[g])
    ensures StoredApart(nodes) ==>
              forall k :: 0 <= k < |groups[g]| && Resolve(nodes, groups[g][k]) < |nodes| ==>
                NewId(derive, nodes[Resolve(nodes, groups[g][k])]) in FollowedGroups(derive, nodes, groups)[g]
  {
    var stored, members := StoredIds(derive, nodes), groups[g];
    DedupedKeepsFirstOccurrences(RenamedAll(stored, members));
    if StoredApart(nodes) {
      forall k | 0 <= k < |members| && Resolve(nodes, members[k]) < |nodes|
        ensures NewId(derive, nodes[Resolve(nodes, members[k])]) in Deduped(RenamedAll(stored, members))
      {
        MemberFollows(derive, nodes, members[k]);
        assert RenamedAll(stored, members)[k] == NewId(derive, nodes[Resolve(nodes, members[k])]);
      }
    }
  }
}
