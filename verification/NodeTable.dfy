/** The table of known nodes: one vector for each reputation level, and an index from id to position. */
module NodeTable {

  import opened Wrappers

  type NodeId = nat
  type Time = nat

  datatype Contact = Success(time: Time) | Failure(time: Time) | Demoted(time: Time)

  datatype Node = Node(
    id: NodeId,
    endpoint: nat,
    lastContact: Option<Contact>,
    lastConnected: Option<Contact>,
    streamToken: Option<nat>,
    tags: map<string, string>)

  /** A level of the table and a slot in it. */
  datatype Position = Position(level: nat, slot: nat)

  const SUCCESS := 0
  const UNKNOWN := 1
  const FAILURE := 2
  const DEMOTED := 3

  /** The level a contact belongs to. */
  function Reputation(contact: Option<Contact>): (level: nat)
    ensures level < 4
  {
    match contact
    case None => UNKNOWN
    case Some(Success(_)) => SUCCESS
    case Some(Failure(_)) => FAILURE
    case Some(Demoted(_)) => DEMOTED
  }

  // ---------------------------------------------------------------------------------------
  // The operations on a plain map
  // ---------------------------------------------------------------------------------------

  type NodeMap = map<NodeId, Node>

  function Added(m: NodeMap, node: Node, preserveLastContact: bool): NodeMap {
    if node.id in m && preserveLastContact then m[node.id := node.(lastContact := m[node.id].lastContact)]
    else m[node.id := node]
  }

  function ContactUpdated(m: NodeMap, node: Node): NodeMap {
    if node.id in m then m[node.id := m[node.id].(lastContact := node.lastContact, endpoint := node.endpoint)]
    else m[node.id := node]
  }

  /** A contact that did not succeed; a demoted node stays demoted. */
  function NotedUnsuccess(m: NodeMap, id: NodeId, byConnection: bool, contact: Option<Contact>): NodeMap {
    if id !in m then m
    else
      var node := m[id];
      var node := if byConnection then node.(lastConnected := contact) else node;
      var stuck := Reputation(node.lastContact) == DEMOTED && Reputation(contact) != DEMOTED;
      m[id := if stuck then node else node.(lastContact := contact)]
  }

  /** A contact that succeeded; a demoted node stays demoted. */
  function NotedSuccess(m: NodeMap, id: NodeId, byConnection: bool, token: Option<nat>, now: Time, later: Time): NodeMap
  {
    if id !in m then m
    else
      var node := m[id];
      var node := if !byConnection then node
                  else node.(lastConnected := Some(Success(later)),
                             streamToken := if token == None then node.streamToken else token);
      m[id := if Reputation(node.lastContact) == DEMOTED then node else node.(lastContact := Some(Success(now)))]
  }

  function Tagged(m: NodeMap, id: NodeId, key: string, value: string): NodeMap {
    if id !in m then m else m[id := m[id].(tags := m[id].tags[key := value])]
  }

  /** A noted success keeps the token of the node unless another one is given with a connection. */
  lemma SuccessKeepsToken(m: NodeMap, id: NodeId, byConnection: bool, token: Option<nat>, now: Time, later: Time)
    requires id in m
    ensures var m1 := NotedSuccess(m, id, byConnection, token, now, later);
            && m1.Keys == m.Keys && (forall other | other in m && other != id :: m1[other] == m[other])
            && m1[id].streamToken == (if byConnection && token.Some? then token else m[id].streamToken)
            && (m[id].lastContact.Some? && m[id].lastContact.value.Demoted? ==> m1[id].lastContact == m[id].lastContact)
  {
  }

  /** A failure that is noted keeps the token, and a demoted node as it is. */
  lemma UnsuccessKeepsToken(m: NodeMap, id: NodeId, byConnection: bool, contact: Option<Contact>)
    requires id in m
    ensures var m1 := NotedUnsuccess(m, id, byConnection, contact);
            && m1.Keys == m.Keys && (forall other | other in m && other != id :: m1[other] == m[other])
            && m1[id].streamToken == m[id].streamToken
            && (m[id].lastContact.Some? && m[id].lastContact.value.Demoted? ==>
                  m1[id].lastContact.Some? && m1[id].lastContact.value.Demoted?)
  {
  }

  predicate SameButContact(a: Node, b: Node) {
    a.(lastContact := None) == b.(lastContact := None)
  }

  /**
   A node added is found under its id as it was given, except that a known node keeps its last
   contact, and so its reputation, when that is asked for. No other node changes.
   */
  lemma AddsOne(m: NodeMap, node: Node, preserve: bool, other: NodeId)
    ensures node.id in Added(m, node, preserve) && SameButContact(Added(m, node, preserve)[node.id], node)
    ensures Added(m, node, preserve)[node.id].lastContact
         == if preserve && node.id in m then m[node.id].lastContact else node.lastContact
    ensures other != node.id ==>
              (other in Added(m, node, preserve) <==> other in m)
              && (other in m ==> Added(m, node, preserve)[other] == m[other])
  {
  }

  /** Updating a contact keeps connection, token and tags of a known node. */
  lemma UpdatesContact(m: NodeMap, node: Node, other: NodeId)
    ensures node.id in ContactUpdated(m, node)
    ensures var after := ContactUpdated(m, node)[node.id];
            && after.lastContact == node.lastContact && after.endpoint == node.endpoint
            && (node.id !in m ==> after == node)
            && (node.id in m ==> after.lastConnected == m[node.id].lastConnected && after.tags == m[node.id].tags
                                 && after.streamToken == m[node.id].streamToken && after.id == m[node.id].id)
    ensures other != node.id ==>
              (other in ContactUpdated(m, node) <==> other in m)
              && (other in m ==> ContactUpdated(m, node)[other] == m[other])
  {
  }

  // ---------------------------------------------------------------------------------------
  // The table
  // ---------------------------------------------------------------------------------------

  predicate InTable(levels: seq<seq<Node>>, p: Position) {
    p.level < |levels| && p.slot < |levels[p.level]|
  }

  function NodeAt(levels: seq<seq<Node>>, p: Position): Node
    requires InTable(levels, p)
  {
    levels[p.level][p.slot]
  }

  /** The index points at the node it names. */
  ghost predicate IndexPoints(levels: seq<seq<Node>>, index: map<NodeId, Position>) {
    forall id | id in index :: InTable(levels, index[id]) && NodeAt(levels, index[id]).id == id
  }

  /** Every node is indexed where it sits, in the level of its last contact. */
  ghost predicate SlotsIndexed(levels: seq<seq<Node>>, index: map<NodeId, Position>) {
    forall p | InTable(levels, p) :: Indexed(NodeAt(levels, p), p, index)
  }

  predicate Indexed(node: Node, p: Position, index: map<NodeId, Position>) {
    node.id in index && index[node.id] == p && Reputation(node.lastContact) == p.level
  }

  ghost predicate Consistent(levels: seq<seq<Node>>, index: map<NodeId, Position>) {
    |levels| == 4 && IndexPoints(levels, index) && SlotsIndexed(levels, index)
  }

  /** The plain map a table stands for. */
  ghost function Contents(levels: seq<seq<Node>>, index: map<NodeId, Position>): NodeMap
    requires IndexPoints(levels, index)
  {
    map id | id in index :: NodeAt(levels, index[id])
  }

  /** The table with the last node of a level dropped. */
  function Dropped(levels: seq<seq<Node>>, l: nat): (levels': seq<seq<Node>>)
    requires l < |levels| && levels[l] != []
    ensures |levels'| == |levels|
    ensures forall p :: InTable(levels', p) <==> InTable(levels, p) && p != Position(l, |levels[l]| - 1)
    ensures forall p | InTable(levels', p) :: NodeAt(levels', p) == NodeAt(levels, p)
  {
    levels[l := levels[l][..|levels[l]| - 1]]
  }

  /** The table with one more node at the end of a level. */
  function Appended(levels: seq<seq<Node>>, l: nat, node: Node): (levels': seq<seq<Node>>)
    requires l < |levels|
    ensures |levels'| == |levels|
    ensures forall p :: InTable(levels', p) <==> InTable(levels, p) || p == Position(l, |levels[l]|)
    ensures forall p | InTable(levels, p) :: NodeAt(levels', p) == NodeAt(levels, p)
    ensures NodeAt(levels', Position(l, |levels[l]|)) == node
  {
    levels[l := levels[l] + [node]]
  }

  /** The table with one node overwritten. */
  function Overwritten(levels: seq<seq<Node>>, q: Position, node: Node): (levels': seq<seq<Node>>)
    requires InTable(levels, q)
    ensures |levels'| == |levels|
    ensures forall p :: InTable(levels', p) <==> InTable(levels, p)
    ensures forall p | InTable(levels, p) :: NodeAt(levels', p) == if p == q then node else NodeAt(levels, p)
  {
    levels[q.level := levels[q.level][q.slot := node]]
  }

  /** The table with one node removed and the last of its level moved into the slot. */
  function SwapRemoved(levels: seq<seq<Node>>, q: Position): (levels': seq<seq<Node>>)
    requires InTable(levels, q)
    ensures |levels'| == |levels|
    ensures var last := Position(q.level, |levels[q.level]| - 1);
            && (forall p :: InTable(levels', p) <==> InTable(levels, p) && p != last)
            && (forall p | InTable(levels', p) :: NodeAt(levels', p) == NodeAt(levels, if p == q then last else p))
  {
    var last := Position(q.level, |levels[q.level]| - 1);
    var dropped := Dropped(levels, q.level);
    if q == last then dropped else Overwritten(dropped, q, NodeAt(levels, last))
  }

  /** The index after a swap-removal. */
  function SwapIndex(levels: seq<seq<Node>>, index: map<NodeId, Position>, q: Position): map<NodeId, Position>
    requires InTable(levels, q)
  {
    var last := Position(q.level, |levels[q.level]| - 1);
    var node, tail := NodeAt(levels, q), NodeAt(levels, last);
    if q == last then index - {node.id} else (index - {node.id})[tail.id := q]
  }

  lemma SwapSlots(levels: seq<seq<Node>>, index: map<NodeId, Position>, q: Position)
    requires Consistent(levels, index) && InTable(levels, q)
    ensures SlotsIndexed(SwapRemoved(levels, q), SwapIndex(levels, index, q))
  {
  }

  /** Where a swap-removal leaves a node, and that it is the same node. */
  lemma SwapAt(levels: seq<seq<Node>>, index: map<NodeId, Position>, q: Position, id: NodeId)
    requires Consistent(levels, index) && InTable(levels, q) && id in SwapIndex(levels, index, q)
    ensures id in index && id != NodeAt(levels, q).id
    ensures var p := SwapIndex(levels, index, q)[id];
            InTable(SwapRemoved(levels, q), p) && NodeAt(SwapRemoved(levels, q), p) == NodeAt(levels, index[id])
  {
    var last := Position(q.level, |levels[q.level]| - 1);
    assert Indexed(NodeAt(levels, q), q, index) && Indexed(NodeAt(levels, last), last, index);
  }

  lemma SwapKeys(levels: seq<seq<Node>>, index: map<NodeId, Position>, q: Position)
    requires Consistent(levels, index) && InTable(levels, q)
    ensures SwapIndex(levels, index, q).Keys == index.Keys - {NodeAt(levels, q).id}
  {
    var last := Position(q.level, |levels[q.level]| - 1);
    assert Indexed(NodeAt(levels, q), q, index) && Indexed(NodeAt(levels, last), last, index);
  }

  lemma SwapPoints(levels: seq<seq<Node>>, index: map<NodeId, Position>, q: Position)
    requires Consistent(levels, index) && InTable(levels, q)
    ensures var levels', index' := SwapRemoved(levels, q), SwapIndex(levels, index, q);
            && IndexPoints(levels', index')
            && Contents(levels', index') == Contents(levels, index) - {NodeAt(levels, q).id}
  {
    var levels', index' := SwapRemoved(levels, q), SwapIndex(levels, index, q);
    SwapKeys(levels, index, q);
    forall id | id in index'
      ensures InTable(levels', index'[id]) && NodeAt(levels', index'[id]) == NodeAt(levels, index[id])
    {
      SwapAt(levels, index, q, id);
    }
  }

  /** Appending a new node to the level of its contact adds it to the map. */
  lemma AppendedConsistent(levels: seq<seq<Node>>, index: map<NodeId, Position>, l: nat, node: Node)
    requires Consistent(levels, index) && node.id !in index && l == Reputation(node.lastContact)
    ensures Consistent(Appended(levels, l, node), index[node.id := Position(l, |levels[l]|)])
  {
  }

  lemma AppendedContents(levels: seq<seq<Node>>, index: map<NodeId, Position>, l: nat, node: Node)
    requires Consistent(levels, index) && node.id !in index && l == Reputation(node.lastContact)
    ensures var levels', index' := Appended(levels, l, node), index[node.id := Position(l, |levels[l]|)];
            IndexPoints(levels', index') && Contents(levels', index') == Contents(levels, index)[node.id := node]
  {
    AppendedConsistent(levels, index, l, node);
  }

  lemma OverwrittenContents(levels: seq<seq<Node>>, index: map<NodeId, Position>, q: Position, node: Node)
    requires Consistent(levels, index) && InTable(levels, q)
    requires node.id == NodeAt(levels, q).id && Reputation(node.lastContact) == q.level
    ensures Consistent(Overwritten(levels, q, node), index)
    ensures Contents(Overwritten(levels, q, node), index) == Contents(levels, index)[node.id := node]
  {
    assert Indexed(NodeAt(levels, q), q, index);
  }

  class NodeTable {
    var levels: seq<seq<Node>>
    var index: map<NodeId, Position>
    var useless: set<NodeId>
    ghost var contents: NodeMap

    ghost predicate Valid()
      reads this
    {
      Consistent(levels, index) && contents == Contents(levels, index)
    }

    /** The plain map the table stands for. */
    ghost function Map(): NodeMap
      reads this
    {
      contents
    }

    constructor ()
      ensures Valid() && Map() == map[] && useless == {}
    {
      levels, index, useless := [[], [], [], []], map[], {};
      contents := map[];
    }

    /** `add_to_reputation_level`. */
    method AddToLevel(level: nat, node: Node)
      requires Valid() && node.id !in index && level == Reputation(node.lastContact)
      modifies this`levels, this`index, this`contents
      ensures Valid() && Map() == old(Map())[node.id := node]
    {
      AppendedContents(levels, index, level, node);
      AppendedConsistent(levels, index, level, node);
      index := index[node.id := Position(level, |levels[level]|)];
      levels := Appended(levels, level, node);
      contents := contents[node.id := node];
    }

    /**
     `remove_from_reputation_level`: the last node of the level moves into the freed slot. The
     index always knows that node, so the source's panics are not reached.
     */
    method RemoveFromLevel(position: Position) returns (removed: Option<Node>)
      requires Valid()
      modifies this`levels, this`index, this`contents
      ensures Valid()
      ensures InTable(old(levels), position) ==>
                var node := NodeAt(old(levels), position);
                removed == Some(node) && Map() == old(Map()) - {node.id}
      ensures !InTable(old(levels), position) ==> removed == None && Map() == old(Map())
    {
      if !InTable(levels, position) {
        return None;
      }
      var last := Position(position.level, |levels[position.level]| - 1);
      var tail, node := NodeAt(levels, last), NodeAt(levels, position);
      SwapSlots(levels, index, position);
      SwapPoints(levels, index, position);
      assert Indexed(tail, last, index) && Indexed(node, position, index);
      index := index - {node.id};
      if position != last {
        assert tail.id in index;
        index := index[tail.id := position];
      }
      levels := SwapRemoved(levels, position);
      contents := contents - {node.id};
      removed := Some(node);
    }

    method RemoveWithId(id: NodeId) returns (removed: Option<Node>)
      requires Valid()
      modifies this`levels, this`index, this`contents
      ensures Valid() && Map() == old(Map()) - {id}
      ensures removed == if id in old(Map()) then Some(old(Map())[id]) else None
    {
      if id !in index {
        return None;
      }
      removed := RemoveFromLevel(index[id]);
    }

    /** Overwrites the node at a position with one of the same id and level. */
    method SetNode(position: Position, node: Node)
      requires Valid() && InTable(levels, position)
      requires node.id == NodeAt(levels, position).id && Reputation(node.lastContact) == position.level
      modifies this`levels, this`contents
      ensures Valid() && Map() == old(Map())[node.id := node]
    {
      OverwrittenContents(levels, index, position, node);
      levels := Overwritten(levels, position, node);
      contents := contents[node.id := node];
    }

    /** Moves the node with this id to the level of its new last contact. */
    method MoveNode(node: Node)
      requires Valid() && node.id in index
      modifies this`levels, this`index, this`contents
      ensures Valid() && Map() == old(Map())[node.id := node]
    {
      var _ := RemoveFromLevel(index[node.id]);
      AddToLevel(Reputation(node.lastContact), node);
    }

    method AddNode(node: Node, preserveLastContact: bool)
      requires Valid()
      modifies this`levels, this`index, this`contents
      ensures Valid() && Map() == Added(old(Map()), node, preserveLastContact)
    {
      if node.id !in index {
        AddToLevel(Reputation(node.lastContact), node);
        return;
      }
      var position := index[node.id];
      var existing := NodeAt(levels, position);
      if preserveLastContact {
        SetNode(position, node.(lastContact := existing.lastContact));
      } else if Reputation(node.lastContact) == position.level {
        SetNode(position, node);
      } else {
        MoveNode(node);
      }
    }

    method UpdateLastContact(node: Node)
      requires Valid()
      modifies this`levels, this`index, this`contents
      ensures Valid() && Map() == ContactUpdated(old(Map()), node)
    {
      if node.id !in index {
        AddToLevel(Reputation(node.lastContact), node);
        return;
      }
      var position := index[node.id];
      var existing := NodeAt(levels, position);
      var updated := existing.(lastContact := node.lastContact, endpoint := node.endpoint);
      if Reputation(node.lastContact) == position.level {
        SetNode(position, updated);
      } else {
        MoveNode(updated);
      }
    }

    method NoteUnsuccessContact(id: NodeId, byConnection: bool, contact: Option<Contact>)
      requires Valid()
      modifies this`levels, this`index, this`contents
      ensures Valid() && Map() == NotedUnsuccess(old(Map()), id, byConnection, contact)
    {
      if id !in index {
        return;
      }
      var position := index[id];
      var node := NodeAt(levels, position);
      var connected := if byConnection then node.(lastConnected := contact) else node;
      if Reputation(contact) == position.level {
        SetNode(position, connected.(lastContact := contact));
      } else if position.level == DEMOTED {
        SetNode(position, connected);
      } else {
        MoveNode(connected.(lastContact := contact));
      }
    }

    method NoteSuccess(id: NodeId, byConnection: bool, token: Option<nat>, now: Time, later: Time)
      requires Valid()
      modifies this`levels, this`index, this`contents
      ensures Valid() && Map() == NotedSuccess(old(Map()), id, byConnection, token, now, later)
    {
      if id !in index {
        return;
      }
      var position := index[id];
      var node := NodeAt(levels, position);
      var connected := node;
      if byConnection {
        connected := connected.(lastConnected := Some(Success(later)));
        if token != None {
          connected := connected.(streamToken := token);
        }
      }
      if position.level == SUCCESS {
        SetNode(position, connected.(lastContact := Some(Success(now))));
      } else if position.level == DEMOTED {
        SetNode(position, connected);
      } else {
        MoveNode(connected.(lastContact := Some(Success(now))));
      }
    }

    /** `get_mut` as `set_tag` uses it: only the tags of the node change. */
    method SetTag(id: NodeId, key: string, value: string) returns (found: bool)
      requires Valid()
      modifies this`levels, this`contents
      ensures found == (id in old(Map()))
      ensures Valid() && Map() == Tagged(old(Map()), id, key, value)
    {
      found := id in index;
      if found {
        var node := NodeAt(levels, index[id]);
        assert Indexed(node, index[id], index);
        SetNode(index[id], node.(tags := node.tags[key := value]));
      }
    }

    method Get(id: NodeId) returns (node: Option<Node>)
      requires Valid()
      ensures node == if id in Map() then Some(Map()[id]) else None
    {
      if id in index {
        node := Some(NodeAt(levels, index[id]));
      } else {
        node := None;
      }
    }

    method Contains(id: NodeId) returns (found: bool)
      requires Valid()
      ensures found == (id in Map())
    {
      found := id in index;
    }
  }
}
