/** `ordered_entries`: the order in which the nodes of a table are tried. */
module NodeOrder {
  import opened NodeTable
  import opened Wrappers

  ghost predicate DistinctIds(nodes: seq<Node>) {
    forall i, j | 0 <= i < j < |nodes| :: nodes[i].id != nodes[j].id
  }

  lemma {:induction false} RepeatedAtTwoPlaces(nodes: seq<Node>, n: Node)
    requires multiset(nodes)[n] >= 2
    ensures exists i, j :: 0 <= i < j < |nodes| && nodes[i] == n && nodes[j] == n
  {
    var last := |nodes| - 1;
    var init := nodes[..last];
    assert nodes == init + [nodes[last]];
    if nodes[last] == n {
      assert n in multiset(init);
      var i :| 0 <= i < last && init[i] == n;
      assert nodes[i] == n && nodes[last] == n;
    } else {
      RepeatedAtTwoPlaces(init, n);
      var i, j :| 0 <= i < j < |init| && init[i] == n && init[j] == n;
      assert nodes[i] == n && nodes[j] == n;
    }
  }

  /** Rearranging keeps ids distinct. */
  lemma PermutedDistinct(a: seq<Node>, b: seq<Node>)
    requires DistinctIds(a) && multiset(a) == multiset(b)
    ensures DistinctIds(b)
  {
    forall i, j | 0 <= i < j < |b|
      ensures b[i].id != b[j].id
    {
      assert b[i] in multiset(a) && b[j] in multiset(a);
      var p :| 0 <= p < |a| && a[p] == b[i];
      var q :| 0 <= q < |a| && a[q] == b[j];
      if b[i] == b[j] {
        TwoPlacesRepeat(b, i, j);
        RepeatedAtTwoPlaces(a, b[i]);
      }
    }
  }

  lemma TwoPlacesRepeat(b: seq<Node>, i: nat, j: nat)
    requires i < j < |b| && b[i] == b[j]
    ensures multiset(b)[b[i]] >= 2
  {
    assert b == b[..j] + [b[j]] + b[j + 1..];
    assert b[..j][i] == b[i];
  }

  // ---------------------------------------------------------------------------------------
  // Sorting and shuffling
  // ---------------------------------------------------------------------------------------

  /** Every node has a last contact, so its time can be read. */
  predicate Timed(nodes: seq<Node>) {
    forall i | 0 <= i < |nodes| :: nodes[i].lastContact.Some?
  }

  /** `a` may stand before `b`. */
  predicate InOrder(a: Node, b: Node, newestFirst: bool)
    requires a.lastContact.Some? && b.lastContact.Some?
  {
    if newestFirst then a.lastContact.value.time >= b.lastContact.value.time
    else a.lastContact.value.time <= b.lastContact.value.time
  }

  ghost predicate Sorted(nodes: seq<Node>, newestFirst: bool)
    requires Timed(nodes)
  {
    forall i, j | 0 <= i < j < |nodes| :: InOrder(nodes[i], nodes[j], newestFirst)
  }

  /** Inserts behind everything it may not precede. */
  function Insert(nodes: seq<Node>, n: Node, newestFirst: bool): (r: seq<Node>)
    requires Timed(nodes) && n.lastContact.Some? && Sorted(nodes, newestFirst)
    ensures Timed(r) && Sorted(r, newestFirst) && multiset(r) == multiset(nodes) + multiset{n}
  {
    if nodes == [] then [n]
    else
      var init, last := nodes[..|nodes| - 1], nodes[|nodes| - 1];
      assert nodes == init + [last];
      if InOrder(last, n, newestFirst) then
        AppendInOrder(nodes, n, newestFirst);
        nodes + [n]
      else
        AppendLast(init, n, Insert(init, n, newestFirst), last, newestFirst);
        Insert(init, n, newestFirst) + [last]
  }

  lemma AppendInOrder(nodes: seq<Node>, n: Node, newestFirst: bool)
    requires Timed(nodes) && n.lastContact.Some? && Sorted(nodes, newestFirst)
    requires nodes != [] && InOrder(nodes[|nodes| - 1], n, newestFirst)
    ensures Timed(nodes + [n]) && Sorted(nodes + [n], newestFirst)
  {
    forall i | 0 <= i < |nodes|
      ensures InOrder(nodes[i], n, newestFirst)
    {
      assert i < |nodes| - 1 ==> InOrder(nodes[i], nodes[|nodes| - 1], newestFirst);
    }
  }

  lemma AppendLast(init: seq<Node>, n: Node, inserted: seq<Node>, last: Node, newestFirst: bool)
    requires Timed(init) && n.lastContact.Some? && last.lastContact.Some? && Timed(inserted)
    requires Sorted(init + [last], newestFirst) && !InOrder(last, n, newestFirst)
    requires Sorted(inserted, newestFirst) && multiset(inserted) == multiset(init) + multiset{n}
    ensures Timed(inserted + [last]) && Sorted(inserted + [last], newestFirst)
  {
    forall i | 0 <= i < |inserted|
      ensures InOrder(inserted[i], last, newestFirst)
    {
      assert inserted[i] in multiset(inserted);
      if inserted[i] != n {
        assert inserted[i] in multiset(init);
        var j :| 0 <= j < |init| && init[j] == inserted[i];
        assert (init + [last])[j] == init[j] && (init + [last])[|init|] == last;
      }
    }
  }

  /** A stable sort by time. */
  function SortByTime(nodes: seq<Node>, newestFirst: bool): (r: seq<Node>)
    requires Timed(nodes)
    ensures Timed(r) && Sorted(r, newestFirst) && multiset(r) == multiset(nodes)
  {
    if nodes == [] then []
    else
      assert nodes == nodes[..|nodes| - 1] + [nodes[|nodes| - 1]];
      Insert(SortByTime(nodes[..|nodes| - 1], newestFirst), nodes[|nodes| - 1], newestFirst)
  }

  /** A Fisher-Yates shuffle driven by arbitrary numbers. */
  method Shuffle(nodes: seq<Node>, picks: seq<nat>) returns (r: seq<Node>)
    ensures multiset(r) == multiset(nodes)
  {
    r := nodes;
    var i := |r|;
    while i > 1
      invariant 0 <= i <= |r| == |nodes| && multiset(r) == multiset(nodes)
    {
      i := i - 1;
      var k := if i < |picks| then picks[i] % (i + 1) else 0;
      r := r[i := r[k]][k := r[i]];
    }
  }

  // ---------------------------------------------------------------------------------------
  // The listing
  // ---------------------------------------------------------------------------------------

  /** The nodes of a level that are not marked useless. */
  method Useful(nodes: seq<Node>, useless: set<NodeId>) returns (kept: seq<Node>)
    requires DistinctIds(nodes)
    ensures DistinctIds(kept)
    ensures forall n :: n in kept <==> n in nodes && n.id !in useless
  {
    kept := [];
    for i := 0 to |nodes|
      invariant DistinctIds(kept)
      invariant forall n :: n in kept <==> n in nodes[..i] && n.id !in useless
    {
      assert nodes[..i + 1] == nodes[..i] + [nodes[i]];
      if nodes[i].id !in useless {
        assert forall j | 0 <= j < |kept| :: kept[j] in nodes[..i];
        kept := kept + [nodes[i]];
      }
    }
    assert nodes[..|nodes|] == nodes;
  }

  /** Successes newest first, then unknown nodes, then failures oldest first. */
  ghost predicate Precedes(a: Node, b: Node) {
    match a.lastContact
    case Some(Success(time)) => b.lastContact.Some? && b.lastContact.value.Success? ==> time >= b.lastContact.value.time
    case None => b.lastContact.Some? ==> !b.lastContact.value.Success?
    case Some(Failure(time)) => b.lastContact.Some? && b.lastContact.value.Failure? && time <= b.lastContact.value.time
    case Some(Demoted(_)) => false
  }

  /** Any node is tried that was not demoted. */
  predicate IsTried(n: Node) {
    n.lastContact.Some? ==> !n.lastContact.value.Demoted?
  }

  lemma TriedLevels(n: Node)
    ensures IsTried(n) <==> Reputation(n.lastContact) in {SUCCESS, UNKNOWN, FAILURE}
  {
  }

  lemma LevelNodes(table: NodeTable, level: nat)
    requires table.Valid() && level < 4
    ensures DistinctIds(table.levels[level])
    ensures forall n: Node :: n in table.levels[level] <==>
                  n.id in table.Map() && table.Map()[n.id] == n && Reputation(n.lastContact) == level
  {
    var nodes := table.levels[level];
    forall i | 0 <= i < |nodes|
      ensures Indexed(nodes[i], Position(level, i), table.index)
    {
      assert InTable(table.levels, Position(level, i)) && NodeAt(table.levels, Position(level, i)) == nodes[i];
    }
    forall n: Node | n.id in table.Map() && table.Map()[n.id] == n && Reputation(n.lastContact) == level
      ensures n in nodes
    {
      var p := table.index[n.id];
      assert Indexed(NodeAt(table.levels, p), p, table.index);
      assert nodes[p.slot] == n;
    }
  }

  /**
   `ordered_entries`: every node that is neither useless nor demoted, once, in trying order. Each
   node sits in the level of its last contact, so reading the times never fails.
   */
  method OrderedEntries(table: NodeTable, picks: seq<nat>) returns (r: seq<Node>)
    requires table.Valid()
    ensures DistinctIds(r)
    ensures forall n: Node :: n in r <==>
                  n.id in table.Map() && table.Map()[n.id] == n && n.id !in table.useless && IsTried(n)
    ensures forall i, j | 0 <= i < j < |r| :: Precedes(r[i], r[j])
  {
    LevelNodes(table, SUCCESS);
    LevelNodes(table, FAILURE);
    LevelNodes(table, UNKNOWN);
    var success := Useful(table.levels[SUCCESS], table.useless);
    var failures := Useful(table.levels[FAILURE], table.useless);
    var unknown := Useful(table.levels[UNKNOWN], table.useless);
    assert Timed(success) by { assert forall i | 0 <= i < |success| :: success[i] in success; }
    assert Timed(failures) by { assert forall i | 0 <= i < |failures| :: failures[i] in failures; }
    var first, last := SortByTime(success, true), SortByTime(failures, false);
    var middle := Shuffle(unknown, picks);
    SameMembers(success, first);
    SameMembers(failures, last);
    SameMembers(unknown, middle);
    r := first + middle + last;
    Joined(first, middle, last);
    forall n: Node
      ensures IsTried(n) <==> Reputation(n.lastContact) in {SUCCESS, UNKNOWN, FAILURE}
    {
      TriedLevels(n);
    }
  }

  lemma SameMembers(a: seq<Node>, b: seq<Node>)
    requires multiset(a) == multiset(b) && DistinctIds(a)
    ensures DistinctIds(b) && forall n :: n in b <==> n in a
  {
    PermutedDistinct(a, b);
    forall n
      ensures n in b <==> n in a
    {
      assert n in b <==> n in multiset(b);
      assert n in a <==> n in multiset(a);
    }
  }

  /** Three runs of one reputation each, each in order, make one listing in order. */
  lemma Joined(first: seq<Node>, middle: seq<Node>, last: seq<Node>)
    requires forall n | n in first :: Reputation(n.lastContact) == SUCCESS
    requires forall n | n in middle :: Reputation(n.lastContact) == UNKNOWN
    requires forall n | n in last :: Reputation(n.lastContact) == FAILURE
    requires DistinctIds(first) && DistinctIds(middle) && DistinctIds(last)
    requires Timed(first) && Sorted(first, true) && Timed(last) && Sorted(last, false)
    requires forall n, m | n in first + middle + last && m in first + middle + last :: n.id == m.id ==> n == m
    ensures var r := first + middle + last;
            DistinctIds(r) && forall i, j | 0 <= i < j < |r| :: Precedes(r[i], r[j])
  {
  }
}
