/** The session manager: the slab of live sessions, the count of ingress sessions and the node index. */
module Sessions {
  import NodeTable
  import opened Powers
  import opened SessionTags
  import opened Wrappers

  type NodeId = NodeTable.NodeId

  /** An ingress session learns its node id in the handshake; an egress session is created with it. */
  datatype Session = Session(id: Option<NodeId>, originated: bool)

  datatype Manager = Manager(
    capacity: nat, maxIngress: nat,
    sessions: map<Token, Session>, nodeIndex: map<NodeId, Token>, ingress: nat, tags: BySession)

  function Empty(capacity: nat, maxIngress: nat): Manager {
    Manager(capacity, maxIngress, map[], map[], 0, map[])
  }

  datatype CreateResult = Created(token: Token) | MaxIngress | SessionExists | IpLimited | MaxSessions | SessionFailed

  /**
   - `Create`: `ipAllowed` is the verdict of the address limit, `vacant` the slot the slab offers
     and `canOpen` whether the session can be set up
   - `Handshake`: the session learns the id of its peer
   - `Hello`: an ingress session puts an id in the node index
   - `Remove`: takes out the session at a token, by a handle to the session that is meant
   */
  datatype Operation =
    | Create(id: Option<NodeId>, ipAllowed: bool, vacant: Token, canOpen: bool)
    | Handshake(token: Token, peer: NodeId)
    | Hello(token: Token, nodeId: NodeId)
    | Remove(token: Token, handle: Session)
    | AddTag(token: Token, key: string, value: string)

  function CreateOutcome(m: Manager, id: Option<NodeId>, ipAllowed: bool, vacant: Token, canOpen: bool): CreateResult {
    if id.None? && m.ingress >= m.maxIngress then MaxIngress
    else if id.Some? && id.value in m.nodeIndex then SessionExists
    else if !ipAllowed then IpLimited
    else if |m.sessions| >= m.capacity then MaxSessions
    else if !canOpen then SessionFailed
    else Created(vacant)
  }

  function WithSession(m: Manager, id: Option<NodeId>, token: Token): Manager {
    m.(sessions := m.sessions[token := Session(id, id.Some?)],
       nodeIndex := if id.Some? then m.nodeIndex[id.value := token] else m.nodeIndex,
       ingress := if id.None? then m.ingress + 1 else m.ingress)
  }

  function WithId(m: Manager, token: Token, peer: NodeId): Manager {
    if token in m.sessions && m.sessions[token].id.None? then
      m.(sessions := m.sessions[token := m.sessions[token].(id := Some(peer))])
    else m
  }

  /** A second HELLO of a session that is still the one indexed stops the program. */
  predicate RepeatedHello(m: Manager, id: NodeId, token: Token) {
    id in m.nodeIndex && m.nodeIndex[id] == token
  }

  /** The counter is a 64-bit atomic, which wraps around. */
  function Decremented(n: nat): nat {
    if n == 0 then TWO_64 - 1 else n - 1
  }

  /** The manager without the session at a token, as far as the handle tells what that session was. */
  function Without(m: Manager, token: Token, handle: Session): Manager {
    if token !in m.sessions then m
    else
      m.(sessions := m.sessions - {token},
         nodeIndex := if handle.id.Some? && RepeatedHello(m, handle.id.value, token)
                      then m.nodeIndex - {handle.id.value} else m.nodeIndex,
         ingress := if handle.originated then m.ingress else Decremented(m.ingress),
         tags := m.tags - {token})
  }

  function Step(m: Manager, op: Operation): Option<Manager> {
    match op
    case Create(id, ipAllowed, vacant, canOpen) =>
      if vacant in m.sessions || !CreateOutcome(m, id, ipAllowed, vacant, canOpen).Created? then Some(m)
      else Some(WithSession(m, id, vacant))
    case Handshake(token, peer) => Some(WithId(m, token, peer))
    case Hello(token, id) =>
      if token !in m.sessions then Some(m)
      else if RepeatedHello(m, id, token) then None
      else Some(m.(nodeIndex := m.nodeIndex[id := token]))
    case Remove(token, handle) => Some(Without(m, token, handle))
    case AddTag(token, key, value) => Some(m.(tags := WithTag(m.tags, token, key, value)))
  }

  // ---------------------------------------------------------------------------------------
  // What every operation keeps
  // ---------------------------------------------------------------------------------------

  function IngressTokens(sessions: map<Token, Session>): set<Token> {
    set t | t in sessions && !sessions[t].originated
  }

  /** The counter is the number of live ingress sessions, and there are never too many of them. */
  ghost predicate Counted(m: Manager) {
    m.ingress == |IngressTokens(m.sessions)| <= m.maxIngress && |m.sessions| <= m.capacity
  }

  /** Every entry of the node index leads to a live session with that id. */
  ghost predicate IndexLive(m: Manager) {
    forall id | id in m.nodeIndex :: m.nodeIndex[id] in m.sessions && m.sessions[m.nodeIndex[id]].id == Some(id)
  }

  ghost predicate Ok(m: Manager) {
    Counted(m) && IndexLive(m)
  }

  lemma MapGrows(sessions: map<Token, Session>, token: Token, s: Session)
    requires token !in sessions
    ensures |sessions[token := s]| == |sessions| + 1
  {
  }

  lemma IngressGrows(sessions: map<Token, Session>, token: Token, s: Session)
    requires token !in sessions
    ensures |IngressTokens(sessions[token := s])| == |IngressTokens(sessions)| + if s.originated then 0 else 1
  {
    var before, after := IngressTokens(sessions), IngressTokens(sessions[token := s]);
    if s.originated {
      assert after == before;
    } else {
      assert after == before + {token};
    }
  }

  lemma MapShrinks(sessions: map<Token, Session>, token: Token)
    requires token in sessions
    ensures |sessions - {token}| == |sessions| - 1
    ensures |IngressTokens(sessions)|
         == |IngressTokens(sessions - {token})| + if sessions[token].originated then 0 else 1
  {
    var rest := sessions - {token};
    MapGrows(rest, token, sessions[token]);
    IngressGrows(rest, token, sessions[token]);
    assert rest[token := sessions[token]] == sessions;
  }

  lemma CreateKeeps(m: Manager, id: Option<NodeId>, token: Token)
    requires Ok(m) && token !in m.sessions && |m.sessions| < m.capacity
    requires if id.Some? then id.value !in m.nodeIndex else m.ingress < m.maxIngress
    ensures Ok(WithSession(m, id, token))
  {
    MapGrows(m.sessions, token, Session(id, id.Some?));
    IngressGrows(m.sessions, token, Session(id, id.Some?));
  }

  lemma HandshakeKeeps(m: Manager, token: Token, peer: NodeId)
    requires Ok(m)
    ensures Ok(WithId(m, token, peer))
  {
    var m1 := WithId(m, token, peer);
    assert m1.sessions.Keys == m.sessions.Keys;
    assert IngressTokens(m1.sessions) == IngressTokens(m.sessions);
    assert |m1.sessions| == |m1.sessions.Keys| == |m.sessions|;
  }

  /** The handle tells of the session at the token what removing it needs to know. */
  predicate Agrees(m: Manager, token: Token, handle: Session) {
    token in m.sessions ==>
      var s := m.sessions[token];
      && handle.originated == s.originated
      && (s.id.Some? && RepeatedHello(m, s.id.value, token) ==> handle.id == s.id)
  }

  /** What a caller has to see to: its handle is not stale, and its id is that of the session. */
  predicate Fits(m: Manager, op: Operation) {
    match op
    case Hello(token, id) => token in m.sessions ==> m.sessions[token].id == Some(id)
    case Remove(token, handle) => Agrees(m, token, handle)
    case _ => true
  }

  /** Removing a session keeps the counter and the index exactly when the handle agrees. */
  lemma RemoveKeepsIff(m: Manager, token: Token, handle: Session)
    requires Ok(m)
    ensures Ok(Without(m, token, handle)) <==> Agrees(m, token, handle)
    ensures Agrees(m, token, handle) ==>
              forall id | id in Without(m, token, handle).nodeIndex :: Without(m, token, handle).nodeIndex[id] != token
  {
    if token in m.sessions {
      MapShrinks(m.sessions, token);
      var s := m.sessions[token];
      if s.id.Some? && RepeatedHello(m, s.id.value, token) && handle.id != s.id {
        assert s.id.value in Without(m, token, handle).nodeIndex;
      }
    }
  }

  /** Indexing a session keeps the index exactly when the id is its own. */
  lemma HelloKeepsIff(m: Manager, token: Token, id: NodeId)
    requires Ok(m) && token in m.sessions
    ensures Ok(m.(nodeIndex := m.nodeIndex[id := token])) <==> m.sessions[token].id == Some(id)
  {
    assert id in m.nodeIndex[id := token];
  }

  /**
   An operation keeps the counter and the index exactly when it fits, and only the repeated HELLO
   of a live session stops the program.
   */
  lemma StepKeepsIff(m: Manager, op: Operation)
    requires Ok(m)
    ensures Step(m, op).None? <==> op.Hello? && op.token in m.sessions && RepeatedHello(m, op.nodeId, op.token)
    ensures Step(m, op).Some? ==> (Ok(Step(m, op).value) <==> Fits(m, op))
  {
    match op {
      case Create(id, ipAllowed, vacant, canOpen) =>
        if vacant !in m.sessions && CreateOutcome(m, id, ipAllowed, vacant, canOpen).Created? {
          CreateKeeps(m, id, vacant);
        }
      case Handshake(token, peer) =>
        HandshakeKeeps(m, token, peer);
      case Hello(token, id) =>
        if token in m.sessions {
          HelloKeepsIff(m, token, id);
        }
      case Remove(token, handle) =>
        RemoveKeepsIff(m, token, handle);
      case AddTag(_, _, _) =>
    }
  }

  function Run(m: Manager, ops: seq<Operation>): Option<Manager>
    decreases ops
  {
    if ops == [] then Some(m)
    else
      var next := Step(m, ops[0]);
      if next.None? then None else Run(next.value, ops[1..])
  }

  /** Every operation fits where it happens. */
  ghost predicate AllFit(m: Manager, ops: seq<Operation>)
    decreases ops
  {
    ops == [] || (Fits(m, ops[0]) && (Step(m, ops[0]).Some? ==> AllFit(Step(m, ops[0]).value, ops[1..])))
  }

  lemma {:induction false} RunKeeps(m: Manager, ops: seq<Operation>)
    requires Ok(m) && AllFit(m, ops) && Run(m, ops).Some?
    ensures Ok(Run(m, ops).value)
    decreases ops
  {
    if ops != [] {
      StepKeepsIff(m, ops[0]);
      RunKeeps(Step(m, ops[0]).value, ops[1..]);
    }
  }

  // ---------------------------------------------------------------------------------------
  // What one operation changes
  // ---------------------------------------------------------------------------------------

  /** Which error a new session is refused with: the first of the limits that it meets. */
  lemma CreateErrors(m: Manager, id: Option<NodeId>, ipAllowed: bool, vacant: Token, canOpen: bool)
    requires Ok(m)
    ensures var r := CreateOutcome(m, id, ipAllowed, vacant, canOpen);
            var known := id.Some? && id.value in m.nodeIndex;
            var full := id.None? && |IngressTokens(m.sessions)| == m.maxIngress;
            && (r == MaxIngress <==> full)
            && (r == SessionExists <==> known)
            && (r == IpLimited <==> !full && !known && !ipAllowed)
            && (r == MaxSessions <==> !full && !known && ipAllowed && |m.sessions| == m.capacity)
            && (r == SessionFailed <==> !full && !known && ipAllowed && |m.sessions| < m.capacity && !canOpen)
  {
  }

  /** The session that was created is the one found at its token and, when it has an id, under it. */
  lemma CreatesOne(m: Manager, op: Operation)
    requires op.Create? && op.vacant !in m.sessions
    requires CreateOutcome(m, op.id, op.ipAllowed, op.vacant, op.canOpen) == Created(op.vacant)
    ensures Step(m, op).Some?
    ensures var m1 := Step(m, op).value;
            && op.vacant in m1.sessions && m1.sessions[op.vacant].id == op.id
            && (m1.sessions[op.vacant].originated <==> op.id.Some?)
            && (op.id.Some? ==> op.id.value in m1.nodeIndex && m1.nodeIndex[op.id.value] == op.vacant)
  {
  }

  function TokenOf(op: Operation): Token {
    match op
    case Create(_, _, vacant, _) => vacant
    case _ => op.token
  }

  /** The id an operation may index or take out of the index. */
  function IdOf(op: Operation): Option<NodeId> {
    match op
    case Create(id, _, _, _) => id
    case Hello(_, id) => Some(id)
    case Remove(_, handle) => handle.id
    case _ => None
  }

  /** An operation leaves the sessions and tags at other tokens alone, and the index entries of other ids. */
  lemma OthersStay(m: Manager, op: Operation, token: Token, id: NodeId)
    requires Step(m, op).Some? && token != TokenOf(op) && IdOf(op) != Some(id)
    ensures var m1 := Step(m, op).value;
            && (token in m1.sessions <==> token in m.sessions)
            && (token in m.sessions ==> m1.sessions[token] == m.sessions[token])
            && (token in m1.tags <==> token in m.tags)
            && (token in m.tags ==> m1.tags[token] == m.tags[token])
            && (id in m1.nodeIndex <==> id in m.nodeIndex)
            && (id in m.nodeIndex ==> m1.nodeIndex[id] == m.nodeIndex[id])
  {
  }

  /** A session is gone, with its tags and its index entry, once removed by a handle that agrees. */
  lemma RemovesOne(m: Manager, token: Token, handle: Session)
    requires Ok(m) && TagsLive(m) && Agrees(m, token, handle)
    ensures Step(m, Remove(token, handle)).Some?
    ensures var m1 := Step(m, Remove(token, handle)).value;
            && token !in m1.sessions && token !in m1.tags
            && (forall id | id in m1.nodeIndex :: m1.nodeIndex[id] != token)
            && (forall id | id in m.nodeIndex && m.nodeIndex[id] != token ::
                  id in m1.nodeIndex && m1.nodeIndex[id] == m.nodeIndex[id])
  {
    RemoveKeepsIff(m, token, handle);
  }

  /** A session learns the id of its peer once, and nothing else about it changes. */
  lemma LearnsId(m: Manager, token: Token, peer: NodeId)
    requires token in m.sessions
    ensures Step(m, Handshake(token, peer)).Some?
    ensures var m1 := Step(m, Handshake(token, peer)).value;
            && token in m1.sessions && m1.sessions[token].originated == m.sessions[token].originated
            && m1.sessions[token].id == (if m.sessions[token].id.Some? then m.sessions[token].id else Some(peer))
            && m1.nodeIndex == m.nodeIndex && m1.ingress == m.ingress
  {
  }

  /** A HELLO indexes its session under the id it tells, in place of the session indexed before. */
  lemma HelloIndexes(m: Manager, token: Token, id: NodeId)
    requires token in m.sessions && Step(m, Hello(token, id)).Some?
    ensures var m1 := Step(m, Hello(token, id)).value;
            m1.sessions == m.sessions && id in m1.nodeIndex && m1.nodeIndex[id] == token
  {
  }

  /** Only live sessions have tags. */
  ghost predicate TagsLive(m: Manager) {
    forall token | token in m.tags :: token in m.sessions
  }

  /** An operation keeps the tags to live sessions exactly when it does not tag another token. */
  lemma TagsLiveIff(m: Manager, op: Operation)
    requires TagsLive(m) && Step(m, op).Some?
    ensures TagsLive(Step(m, op).value) <==> (op.AddTag? ==> op.token in m.sessions)
  {
    if op.AddTag? {
      assert op.token in Step(m, op).value.tags;
    }
  }

  /** Tags are given to live sessions only. */
  ghost predicate TagsFit(m: Manager, ops: seq<Operation>)
    decreases ops
  {
    ops == [] ||
    (&& (ops[0].AddTag? ==> ops[0].token in m.sessions)
     && (Step(m, ops[0]).Some? ==> TagsFit(Step(m, ops[0]).value, ops[1..])))
  }

  lemma {:induction false} RunKeepsTagsLive(m: Manager, ops: seq<Operation>)
    requires TagsLive(m) && TagsFit(m, ops) && Run(m, ops).Some?
    ensures TagsLive(Run(m, ops).value)
    decreases ops
  {
    if ops != [] {
      TagsLiveIff(m, ops[0]);
      RunKeepsTagsLive(Step(m, ops[0]).value, ops[1..]);
    }
  }

  // ---------------------------------------------------------------------------------------
  // The object
  // ---------------------------------------------------------------------------------------

  class SessionManager {
    const capacity: nat
    const maxIngressSessions: nat
    const tagIndex: SessionTagIndex
    var sessions: map<Token, Session>
    var curIngressSessions: nat
    var nodeIdIndex: map<NodeId, Token>

    ghost function View(): Manager
      reads this, tagIndex
    {
      Manager(capacity, maxIngressSessions, sessions, nodeIdIndex, curIngressSessions, tagIndex.bySession)
    }

    ghost predicate Valid()
      reads this, tagIndex
    {
      Ok(View()) && tagIndex.Valid()
    }

    constructor (capacity: nat, maxIngressSessions: nat)
      ensures Valid() && View() == Empty(capacity, maxIngressSessions) && fresh(tagIndex)
    {
      this.capacity := capacity;
      this.maxIngressSessions := maxIngressSessions;
      tagIndex := new SessionTagIndex();
      sessions := map[];
      curIngressSessions := 0;
      nodeIdIndex := map[];
    }

    method Create(id: Option<NodeId>, ipAllowed: bool, vacant: Token, canOpen: bool) returns (r: CreateResult)
      requires Valid() && vacant !in sessions
      modifies this
      ensures Valid() && r == CreateOutcome(old(View()), id, ipAllowed, vacant, canOpen)
      ensures Some(View()) == Step(old(View()), Operation.Create(id, ipAllowed, vacant, canOpen))
    {
      StepKeepsIff(View(), Operation.Create(id, ipAllowed, vacant, canOpen));
      if id.None? && curIngressSessions >= maxIngressSessions {
        return MaxIngress;
      }
      if id.Some? && id.value in nodeIdIndex {
        return SessionExists;
      }
      if !ipAllowed {
        return IpLimited;
      }
      if |sessions| >= capacity {
        return MaxSessions;
      }
      if !canOpen {
        return SessionFailed;
      }
      sessions := sessions[vacant := Session(id, id.Some?)];
      if id.Some? {
        nodeIdIndex := nodeIdIndex[id.value := vacant];
      }
      if id.None? {
        curIngressSessions := curIngressSessions + 1;
      }
      return Created(vacant);
    }

    /** Takes out the session at the token of `handle`; the object stays valid if the handle agrees. */
    method Remove(token: Token, handle: Session)
      requires Valid()
      modifies this, tagIndex
      ensures Some(View()) == Step(old(View()), Operation.Remove(token, handle))
      ensures tagIndex.Valid() && (Agrees(old(View()), token, handle) ==> Valid())
    {
      StepKeepsIff(View(), Operation.Remove(token, handle));
      if token in sessions {
        sessions := sessions - {token};
        if handle.id.Some? && handle.id.value in nodeIdIndex && nodeIdIndex[handle.id.value] == token {
          nodeIdIndex := nodeIdIndex - {handle.id.value};
        }
        if !handle.originated {
          curIngressSessions := if curIngressSessions == 0 then TWO_64 - 1 else curIngressSessions - 1;
        }
        var _ := tagIndex.Remove(token);
      }
    }

    /**
     The result is the session that held the id before, which has to be disconnected. The object
     stays valid if the id is that of the session.
     */
    method UpdateIngressNodeId(idx: Token, nodeId: NodeId) returns (found: bool, toDisconnect: Option<Token>)
      requires Valid() && (idx in sessions ==> !RepeatedHello(View(), nodeId, idx))
      modifies this`nodeIdIndex
      ensures found == (idx in sessions) && Some(View()) == Step(old(View()), Hello(idx, nodeId))
      ensures idx in sessions ==> (sessions[idx].id == Some(nodeId) <==> Valid())
      ensures toDisconnect == if found && nodeId in old(nodeIdIndex) then Some(old(nodeIdIndex)[nodeId]) else None
      ensures toDisconnect.Some? ==> toDisconnect.value in sessions && toDisconnect.value != idx
    {
      StepKeepsIff(View(), Hello(idx, nodeId));
      toDisconnect := None;
      if idx !in sessions {
        return false, None;
      }
      if nodeId in nodeIdIndex {
        toDisconnect := Some(nodeIdIndex[nodeId]);
      }
      nodeIdIndex := nodeIdIndex[nodeId := idx];
      found := true;
    }

    /** The session of a node, if it has one. */
    method GetById(nodeId: NodeId) returns (session: Option<Session>)
      requires Valid()
      ensures session.Some? <==> nodeId in nodeIdIndex
      ensures session.Some? ==> session.value.id == Some(nodeId)
    {
      if nodeId !in nodeIdIndex {
        return None;
      }
      var idx := nodeIdIndex[nodeId];
      return if idx in sessions then Some(sessions[idx]) else None;
    }
  }
}
