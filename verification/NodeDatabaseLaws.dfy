/** Where each operation of the node database leaves every node, and how long a node stays blacklisted. */
module NodeDatabaseLaws {
  import opened NodeTable
  import opened NodeDatabase
  import opened Wrappers

  datatype Place = Trusted(node: Node) | Untrusted(node: Node) | OnBlacklist(node: Node) | Nowhere

  function Where(db: Db, id: NodeId): Place {
    if id in db.trusted then Trusted(db.trusted[id])
    else if id in db.untrusted then Untrusted(db.untrusted[id])
    else if id in db.blacklisted then OnBlacklist(db.blacklisted[id])
    else Nowhere
  }

  /** With disjoint tables the place of an id says all there is to say about it. */
  lemma WhereIff(db: Db, id: NodeId)
    requires Sound(db)
    ensures id in db.trusted <==> Where(db, id).Trusted?
    ensures id in db.untrusted <==> Where(db, id).Untrusted?
    ensures id in db.blacklisted <==> Where(db, id).OnBlacklist?
  {
  }

  /** The node an operation is about. */
  function Subject(op: Operation): NodeId {
    match op
    case InsertWithToken(entry, _, _, _) => entry.id
    case InsertWithConditionalPromotion(entry, _, _) => entry.id
    case InsertTrusted(entry, _, _) => entry.id
    case _ => op.id
  }

  function EvicteeOf(verdict: Verdict): Option<NodeId> {
    if verdict.OccupyIp? || verdict.Evict? then Some(verdict.evictee) else None
  }

  /** The node the limiter wants evicted during an operation. */
  function Evictee(op: Operation): Option<NodeId> {
    match op
    case InsertWithToken(_, _, limiter, _) => EvicteeOf(limiter.verdict)
    case InsertWithConditionalPromotion(_, limiter, _) => EvicteeOf(limiter.verdict)
    case InsertTrusted(_, limiter, _) => EvicteeOf(limiter.verdict)
    case PromoteOne(_, _, _, verdict) => EvicteeOf(verdict)
    case _ => None
  }

  // ---------------------------------------------------------------------------------------
  // The other nodes
  // ---------------------------------------------------------------------------------------

  lemma EvictedWhere(db: Db, verdict: Verdict, id: NodeId)
    requires Sound(db)
    ensures Where(Evicted(db, verdict), id) == if EvicteeOf(verdict) == Some(id) then Nowhere else Where(db, id)
    ensures Sound(Evicted(db, verdict))
  {
  }

  lemma EvaluatedWhere(db: Db, subject: NodeId, now: Time, id: NodeId)
    requires Sound(db)
    ensures Sound(Evaluated(db, subject, now))
    ensures id != subject || !Where(db, id).OnBlacklist? ==> Where(Evaluated(db, subject, now), id) == Where(db, id)
  {
  }

  lemma InsertWithTokenFrame(db: Db, op: Operation, id: NodeId)
    requires Sound(db) && op.InsertWithToken? && id != op.entry.id && EvicteeOf(op.limiter.verdict) != Some(id)
    ensures Where(Step(db, op), id) == Where(db, id)
  {
    EvaluatedWhere(db, op.entry.id, op.clock.first, id);
    EvictedWhere(Evaluated(db, op.entry.id, op.clock.first), op.limiter.verdict, id);
  }

  lemma PromotableFrame(db: Db, entry: Entry, limiter: Limiter, node: Node, keepContact: bool, id: NodeId)
    requires Sound(db) && node.id == entry.id != id && EvicteeOf(limiter.verdict) != Some(id)
    ensures Where(Promotable(db, entry, limiter, node, keepContact), id) == Where(db, id)
  {
    EvictedWhere(db, limiter.verdict, id);
  }

  lemma InsertWithPromotionFrame(db: Db, op: Operation, id: NodeId)
    requires Sound(db) && op.InsertWithConditionalPromotion? && id != op.entry.id
    requires EvicteeOf(op.limiter.verdict) != Some(id)
    ensures Where(Step(db, op), id) == Where(db, id)
  {
    var evaluated := Evaluated(db, op.entry.id, op.clock.first);
    EvaluatedWhere(db, op.entry.id, op.clock.first, id);
    EvictedWhere(evaluated, op.limiter.verdict, id);
    var node := FreshNode(op.entry).(lastContact := Some(Success(op.clock.second)));
    PromotableFrame(evaluated, op.entry, op.limiter, node, false, id);
  }

  lemma InsertTrustedFrame(db: Db, op: Operation, id: NodeId)
    requires Sound(db) && op.InsertTrusted? && id != op.entry.id && EvicteeOf(op.limiter.verdict) != Some(id)
    ensures Where(Step(db, op), id) == Where(db, id)
  {
    var evaluated := Evaluated(db, op.entry.id, op.clock.first);
    EvaluatedWhere(db, op.entry.id, op.clock.first, id);
    EvictedWhere(evaluated, op.limiter.verdict, id);
    PromotableFrame(evaluated, op.entry, op.limiter, FreshNode(op.entry), true, id);
  }

  lemma PromoteFrame(db: Db, op: Operation, id: NodeId)
    requires Sound(db) && op.PromoteOne? && id != op.id && EvicteeOf(op.verdict) != Some(id)
    ensures Where(Step(db, op), id) == Where(db, id)
  {
    EvictedWhere(db.(untrusted := db.untrusted - {op.id}), op.verdict, id);
  }

  lemma NoteFrame(db: Db, op: Operation, id: NodeId)
    requires Sound(db) && IsNote(op) && id != op.id
    ensures Where(Step(db, op), id) == Where(db, id)
  {
  }

  lemma BlacklistFrame(db: Db, op: Operation, id: NodeId)
    requires Sound(db) && op.SetBlacklisted? && id != op.id
    ensures Where(Step(db, op), id) == Where(db, id)
  {
  }

  lemma MoveFrame(db: Db, op: Operation, id: NodeId)
    requires Sound(db) && (op.Demote? || op.Remove? || op.EvaluateBlacklisted?) && id != op.id
    ensures Where(Step(db, op), id) == Where(db, id)
  {
  }

  /** An operation leaves every node alone but its own and the one evicted. */
  lemma OthersStay(db: Db, op: Operation, id: NodeId)
    requires Sound(db) && id != Subject(op) && Evictee(op) != Some(id)
    ensures Where(Step(db, op), id) == Where(db, id)
  {
    match op
    case InsertWithToken(_, _, _, _) => InsertWithTokenFrame(db, op, id);
    case InsertWithConditionalPromotion(_, _, _) => InsertWithPromotionFrame(db, op, id);
    case InsertTrusted(_, _, _) => InsertTrustedFrame(db, op, id);
    case PromoteOne(_, _, _, _) => PromoteFrame(db, op, id);
    case SetBlacklisted(_, _) => BlacklistFrame(db, op, id);
    case _ => if IsNote(op) { NoteFrame(db, op, id); } else { MoveFrame(db, op, id); }
  }

  /** The operation gets as far as evicting the node the limiter names. */
  predicate Evicts(db: Db, op: Operation) {
    var place := Where(db, Subject(op));
    match op
    case InsertWithToken(_, _, _, clock) => !Barred(place, clock.first)
    case InsertWithConditionalPromotion(_, _, clock) =>
      !Barred(place, clock.first) && !(place.Untrusted? && IsDemoted(place.node))
    case InsertTrusted(_, _, clock) => !Barred(place, clock.first) && !place.Trusted?
    case PromoteOne(_, due, now, _) => place.Untrusted? && ConnectedFor(place.node, due, now)
    case _ => false
  }

  lemma InsertWithTokenEvicts(db: Db, op: Operation, id: NodeId)
    requires Sound(db) && op.InsertWithToken? && id != op.entry.id && Evictee(op) == Some(id)
    ensures Where(Step(db, op), id) == if Evicts(db, op) then Nowhere else Where(db, id)
  {
    EvaluatedWhere(db, op.entry.id, op.clock.first, id);
    EvaluatedOwn(db, op.entry.id, op.clock.first);
    EvictedWhere(Evaluated(db, op.entry.id, op.clock.first), op.limiter.verdict, id);
  }

  lemma PromotableEvicts(db: Db, entry: Entry, limiter: Limiter, node: Node, keepContact: bool, id: NodeId)
    requires Sound(db) && node.id == entry.id != id && EvicteeOf(limiter.verdict) == Some(id)
    ensures Where(Promotable(db, entry, limiter, node, keepContact), id) == Nowhere
  {
    EvictedWhere(db, limiter.verdict, id);
  }

  lemma InsertWithPromotionEvicts(db: Db, op: Operation, id: NodeId)
    requires Sound(db) && op.InsertWithConditionalPromotion? && id != op.entry.id && Evictee(op) == Some(id)
    ensures Where(Step(db, op), id) == if Evicts(db, op) then Nowhere else Where(db, id)
  {
    var evaluated := Evaluated(db, op.entry.id, op.clock.first);
    EvaluatedWhere(db, op.entry.id, op.clock.first, id);
    EvaluatedOwn(db, op.entry.id, op.clock.first);
    if op.entry.id in evaluated.untrusted {
      var node := FreshNode(op.entry).(lastContact := Some(Success(op.clock.second)));
      PromotableEvicts(evaluated, op.entry, op.limiter, node, false, id);
    } else {
      EvictedWhere(evaluated, op.limiter.verdict, id);
    }
  }

  lemma InsertTrustedEvicts(db: Db, op: Operation, id: NodeId)
    requires Sound(db) && op.InsertTrusted? && id != op.entry.id && Evictee(op) == Some(id)
    ensures Where(Step(db, op), id) == if Evicts(db, op) then Nowhere else Where(db, id)
  {
    var evaluated := Evaluated(db, op.entry.id, op.clock.first);
    EvaluatedWhere(db, op.entry.id, op.clock.first, id);
    EvaluatedOwn(db, op.entry.id, op.clock.first);
    EvictedWhere(evaluated, op.limiter.verdict, id);
    PromotableEvicts(evaluated, op.entry, op.limiter, FreshNode(op.entry), true, id);
  }

  lemma PromoteEvicts(db: Db, op: Operation, id: NodeId)
    requires Sound(db) && op.PromoteOne? && id != op.id && Evictee(op) == Some(id)
    ensures Where(Step(db, op), id) == if Evicts(db, op) then Nowhere else Where(db, id)
  {
    EvictedWhere(db.(untrusted := db.untrusted - {op.id}), op.verdict, id);
  }

  /** Another node is evicted exactly when the limiter names it and the operation gets that far. */
  lemma EvictedIff(db: Db, op: Operation, id: NodeId)
    requires Sound(db) && id != Subject(op) && Evictee(op) == Some(id)
    ensures Where(Step(db, op), id) == if Evicts(db, op) then Nowhere else Where(db, id)
  {
    match op
    case InsertTrusted(_, _, _) => InsertTrustedEvicts(db, op, id);
    case PromoteOne(_, _, _, _) => PromoteEvicts(db, op, id);
    case InsertWithToken(_, _, _, _) => InsertWithTokenEvicts(db, op, id);
    case _ => InsertWithPromotionEvicts(db, op, id);
  }

  // ---------------------------------------------------------------------------------------
  // The node of the operation
  // ---------------------------------------------------------------------------------------

  /** Blacklisting moves a known node, marked with the failure, to the blacklist and nothing else. */
  lemma BlacklistsKnown(db: Db, id: NodeId, clock: Clock)
    requires Sound(db)
    ensures Where(Step(db, SetBlacklisted(id, clock)), id) ==
            match Where(db, id) {
              case Trusted(node) => OnBlacklist(FailedAt(node, clock.first))
              case Untrusted(node) => OnBlacklist(FailedAt(node, clock.second))
              case OnBlacklist(node) => OnBlacklist(node)
              case Nowhere => Nowhere
            }
  {
  }

  /** A node that failed to connect; one that was demoted keeps the contact that demoted it. */
  function FailedAt(node: Node, time: Time): Node {
    var contact := Some(Failure(time));
    if IsDemoted(node) then node.(lastConnected := contact)
    else node.(lastConnected := contact, lastContact := contact)
  }

  /** A node on the blacklist stays there exactly while its last contact is at most seven days old. */
  lemma ExpiresIff(db: Db, id: NodeId, now: Time)
    requires Sound(db)
    ensures Where(Step(db, EvaluateBlacklisted(id, now)), id) ==
            if && Where(db, id).OnBlacklist?
               && (Where(db, id).node.lastContact.None? || now > Where(db, id).node.lastContact.value.time + 604800)
            then Nowhere else Where(db, id)
  {
  }

  lemma RemovesOne(db: Db, id: NodeId)
    requires Sound(db)
    ensures Where(Step(db, Remove(id)), id) == Nowhere
  {
  }

  /** Demotion moves a trusted node, as it is, to the untrusted ones. */
  lemma DemotesTrusted(db: Db, id: NodeId)
    requires Sound(db)
    ensures Where(Step(db, Demote(id)), id) ==
            if Where(db, id).Trusted? then Untrusted(Where(db, id).node) else Where(db, id)
  {
  }

  /** Connected successfully, and for longer than is due. */
  predicate ConnectedFor(node: Node, due: Time, now: Time) {
    node.lastConnected.Some? && node.lastConnected.value.Success? && now > node.lastConnected.value.time + due
  }

  /** Promotion moves an untrusted node exactly when it has been connected for longer than is due. */
  lemma PromotesIff(db: Db, id: NodeId, due: Time, now: Time, verdict: Verdict)
    requires Sound(db)
    ensures Where(Step(db, PromoteOne(id, due, now, verdict)), id) ==
            if Where(db, id).Untrusted? && ConnectedFor(Where(db, id).node, due, now)
            then Trusted(Where(db, id).node.(lastContact := Where(db, id).node.lastConnected))
            else Where(db, id)
  {
    EvictedWhere(db.(untrusted := db.untrusted - {id}), verdict, id);
  }

  /** On the blacklist, and not yet for more than seven days. */
  predicate Barred(place: Place, now: Time) {
    place.OnBlacklist? && place.node.lastContact.Some? && now <= place.node.lastContact.value.time + 604800
  }

  lemma EvaluatedOwn(db: Db, id: NodeId, now: Time)
    requires Sound(db)
    ensures Barred(Where(db, id), now) <==> StaysBlacklisted(db, id, now)
    ensures !Barred(Where(db, id), now) ==>
              Where(Evaluated(db, id, now), id) == if Where(db, id).OnBlacklist? then Nowhere else Where(db, id)
    ensures Sound(Evaluated(db, id, now))
  {
  }

  /** The limiter lets the node in. */
  predicate LetsIn(limiter: Limiter) {
    match limiter.verdict
    case AlreadyExists => true
    case QuotaNotEnough => false
    case _ => limiter.inserted
  }

  /** Where a node is that was neither let in nor moved: gone if evicted, or if its time on the blacklist is over. */
  function LeftAlone(place: Place, verdict: Verdict, id: NodeId): Place {
    if EvicteeOf(verdict) == Some(id) || place.OnBlacklist? then Nowhere else place
  }

  /** The node that connected with a token is trusted if it was, and untrusted otherwise. */
  lemma InsertsWithToken(db: Db, entry: Entry, token: nat, limiter: Limiter, clock: Clock)
    requires Sound(db)
    ensures var place := Where(db, entry.id);
            var node := Node(entry.id, entry.endpoint, Some(Success(clock.second)), Some(Success(clock.third)),
                             Some(token), map[]);
            Where(Step(db, InsertWithToken(entry, token, limiter, clock)), entry.id) ==
            if Barred(place, clock.first) then place
            else if !LetsIn(limiter) then LeftAlone(place, limiter.verdict, entry.id)
            else if place.Trusted? then Trusted(node)
            else Untrusted(node)
  {
    EvaluatedOwn(db, entry.id, clock.first);
    if !StaysBlacklisted(db, entry.id, clock.first) {
      EvictedWhere(Evaluated(db, entry.id, clock.first), limiter.verdict, entry.id);
    }
  }

  /** Promotion on insertion: an untrusted node becomes trusted with its connection and token kept. */
  function PromotedPlace(place: Place, entry: Entry, verdict: Verdict, contact: Option<Contact>): Place
    requires place.Untrusted?
  {
    if verdict.QuotaNotEnough? then place
    else if EvicteeOf(verdict) == Some(entry.id) then Nowhere
    else Trusted(Node(entry.id, entry.endpoint, contact, place.node.lastConnected, place.node.streamToken, map[]))
  }

  lemma PromotableOwn(db: Db, entry: Entry, limiter: Limiter, node: Node, keepContact: bool)
    requires Sound(db) && Where(db, entry.id).Untrusted?
    requires node == FreshNode(entry).(lastContact := node.lastContact)
    ensures var place := Where(db, entry.id);
            Where(Promotable(db, entry, limiter, node, keepContact), entry.id) ==
            PromotedPlace(place, entry, limiter.verdict,
                          if keepContact then place.node.lastContact else node.lastContact)
  {
    EvictedWhere(db, limiter.verdict, entry.id);
  }

  /** A node seen again is trusted from then on, unless it was demoted, is barred or is not let in. */
  lemma InsertsWithPromotion(db: Db, entry: Entry, limiter: Limiter, clock: Clock)
    requires Sound(db)
    ensures var place := Where(db, entry.id);
            var contact := Some(Success(clock.second));
            Where(Step(db, InsertWithConditionalPromotion(entry, limiter, clock)), entry.id) ==
            if Barred(place, clock.first) then place
            else if place.Untrusted? then
              if IsDemoted(place.node) then place
              else PromotedPlace(place, entry, limiter.verdict, contact)
            else if !LetsIn(limiter) then LeftAlone(place, limiter.verdict, entry.id)
            else if place.Trusted? && EvicteeOf(limiter.verdict) != Some(entry.id) then
              Trusted(place.node.(lastContact := contact, endpoint := entry.endpoint))
            else Trusted(Node(entry.id, entry.endpoint, contact, None, None, map[]))
  {
    EvaluatedOwn(db, entry.id, clock.first);
    if !StaysBlacklisted(db, entry.id, clock.first) {
      var evaluated := Evaluated(db, entry.id, clock.first);
      EvictedWhere(evaluated, limiter.verdict, entry.id);
      if entry.id in evaluated.untrusted {
        var node := FreshNode(entry).(lastContact := Some(Success(clock.second)));
        PromotableOwn(evaluated, entry, limiter, node, false);
      }
    }
  }

  /** A node inserted as trusted is trusted from then on, unless it is barred or not let in. */
  lemma InsertsTrusted(db: Db, entry: Entry, limiter: Limiter, clock: Clock)
    requires Sound(db)
    ensures var place := Where(db, entry.id);
            Where(Step(db, InsertTrusted(entry, limiter, clock)), entry.id) ==
            if Barred(place, clock.first) || place.Trusted? then place
            else if place.Untrusted? then PromotedPlace(place, entry, limiter.verdict, place.node.lastContact)
            else if !LetsIn(limiter) then LeftAlone(place, limiter.verdict, entry.id)
            else Trusted(Node(entry.id, entry.endpoint, None, None, None, map[]))
  {
    EvaluatedOwn(db, entry.id, clock.first);
    if !StaysBlacklisted(db, entry.id, clock.first) {
      var evaluated := Evaluated(db, entry.id, clock.first);
      EvictedWhere(evaluated, limiter.verdict, entry.id);
      if entry.id in evaluated.untrusted {
        PromotableOwn(evaluated, entry, limiter, FreshNode(entry), true);
      }
    }
  }

  // ---------------------------------------------------------------------------------------
  // Contacts
  // ---------------------------------------------------------------------------------------

  predicate IsDemoted(node: Node) {
    node.lastContact.Some? && node.lastContact.value.Demoted?
  }

  /** The operation only notes a contact or a tag. */
  predicate IsNote(op: Operation) {
    op.NoteFailure? || op.NoteDemoted? || op.NoteSuccess? || op.SetTag?
  }

  predicate SameTable(p: Place, q: Place) {
    (p.Trusted? && q.Trusted?) || (p.Untrusted? && q.Untrusted?) || (p.OnBlacklist? && q.OnBlacklist?)
  }

  /** The contact that an operation notes for a node in one of the tables, if any. */
  function NotedFor(op: Operation, place: Place): Option<Contact> {
    match op
    case NoteFailure(_, _, trustedOnly, clock) =>
      if place.Trusted? then Some(Failure(clock.first))
      else if place.Untrusted? && !trustedOnly then Some(Failure(clock.second))
      else None
    case NoteDemoted(_, _, clock) => if place.Untrusted? then Some(Demoted(clock.first)) else None
    case NoteSuccess(_, _, trustedOnly, clock) =>
      if place.Trusted? then Some(Success(clock.first))
      else if place.Untrusted? && !trustedOnly then Some(Success(clock.third))
      else None
    case _ => None
  }

  /**
   A note leaves the node in its table and with the contact noted; a node that was demoted keeps a
   contact that demotes it.
   */
  lemma NotesContact(db: Db, op: Operation)
    requires Sound(db) && IsNote(op) && Where(db, op.id) != Nowhere
    ensures var before, after := Where(db, op.id), Where(Step(db, op), op.id);
            var contact := NotedFor(op, before);
            && SameTable(before, after)
            && after.node.lastContact ==
               if contact.None? || (IsDemoted(before.node) && !contact.value.Demoted?) then before.node.lastContact
               else contact
  {
  }

  /** The operation notes that a connection was made, or failed. */
  predicate ByConnection(op: Operation) {
    match op
    case NoteFailure(_, byConnection, _, _) => byConnection
    case NoteDemoted(_, byConnection, _) => byConnection
    case NoteSuccess(_, maybeToken, _, _) => maybeToken.Some?
    case _ => false
  }

  /** The connection an operation notes; a success is timed by a second reading of the clock. */
  function ConnectionNoted(op: Operation, place: Place): Option<Contact> {
    if !op.NoteSuccess? || NotedFor(op, place).None? then NotedFor(op, place)
    else Some(Success(if place.Trusted? then op.clock.second else op.clock.fourth))
  }

  /** Only a connection changes the last connection and the token, and only a tag the tags. */
  lemma NotesConnection(db: Db, op: Operation)
    requires Sound(db) && IsNote(op) && Where(db, op.id) != Nowhere
    ensures var before, after := Where(db, op.id), Where(Step(db, op), op.id);
            var noted := ByConnection(op) && NotedFor(op, before).Some?;
            && after != Nowhere
            && after.node.lastConnected == (if noted then ConnectionNoted(op, before) else before.node.lastConnected)
            && after.node.streamToken ==
               if noted && op.NoteSuccess? then op.maybeToken else before.node.streamToken
  {
  }

  lemma NotesTag(db: Db, op: Operation)
    requires Sound(db) && IsNote(op) && Where(db, op.id) != Nowhere
    ensures var before, after := Where(db, op.id), Where(Step(db, op), op.id);
            && after != Nowhere
            && after.node.id == before.node.id && after.node.endpoint == before.node.endpoint
            && after.node.tags ==
               if op.SetTag? && !before.OnBlacklist? then before.node.tags[op.key := op.value] else before.node.tags
  {
  }

  /** Notes do not create nodes. */
  lemma NotesOnlyKnown(db: Db, op: Operation)
    requires Sound(db) && IsNote(op) && Where(db, op.id) == Nowhere
    ensures Step(db, op) == db
  {
  }

  /** Whatever is noted about it and whatever happens to others, a demoted node stays demoted. */
  lemma {:induction false} StaysDemoted(db: Db, ops: seq<Operation>, id: NodeId)
    requires Sound(db) && Where(db, id) != Nowhere && IsDemoted(Where(db, id).node)
    requires forall op | op in ops :: Evictee(op) != Some(id) && (Subject(op) == id ==> IsNote(op))
    ensures SameTable(Where(db, id), Where(Run(db, ops), id)) && IsDemoted(Where(Run(db, ops), id).node)
  {
    if ops != [] {
      var first, op := ops[..|ops| - 1], ops[|ops| - 1];
      assert ops == first + [op];
      StaysDemoted(db, first, id);
      RunKeepsSound(db, first);
      if Subject(op) == id {
        NotesContact(Run(db, first), op);
      } else {
        OthersStay(Run(db, first), op, id);
      }
    }
  }

  // ---------------------------------------------------------------------------------------
  // Seven days
  // ---------------------------------------------------------------------------------------

  /** The first reading of the clock in an operation. */
  function Reading(op: Operation): Time {
    match op
    case PromoteOne(_, _, now, _) => now
    case EvaluateBlacklisted(_, now) => now
    case Demote(_) => 0
    case Remove(_) => 0
    case SetTag(_, _, _) => 0
    case _ => op.clock.first
  }

  /** No operation about a barred node but its removal changes anything about it. */
  lemma BarredStays(db: Db, op: Operation, id: NodeId)
    requires Sound(db) && Subject(op) == id && Barred(Where(db, id), Reading(op)) && !op.Remove?
    requires Evictee(op) != Some(id)
    ensures Where(Step(db, op), id) == Where(db, id)
  {
    match op
    case InsertWithToken(entry, token, limiter, clock) => InsertsWithToken(db, entry, token, limiter, clock);
    case InsertWithConditionalPromotion(entry, limiter, clock) => InsertsWithPromotion(db, entry, limiter, clock);
    case InsertTrusted(entry, limiter, clock) => InsertsTrusted(db, entry, limiter, clock);
    case PromoteOne(_, due, now, verdict) => PromotesIff(db, id, due, now, verdict);
    case SetBlacklisted(_, clock) => BlacklistsKnown(db, id, clock);
    case EvaluateBlacklisted(_, now) => ExpiresIff(db, id, now);
    case _ =>
  }

  /**
   For seven days after its last contact a blacklisted node stays blacklisted, just as it is, through
   every sequence of operations that neither removes nor evicts it.
   */
  lemma {:induction false} BarredForSevenDays(db: Db, ops: seq<Operation>, id: NodeId)
    requires Sound(db) && Where(db, id).OnBlacklist? && Where(db, id).node.lastContact.Some?
    requires forall op | op in ops ::
               && op != Remove(id) && Evictee(op) != Some(id)
               && Reading(op) <= Where(db, id).node.lastContact.value.time + 604800
    ensures Where(Run(db, ops), id) == Where(db, id)
    ensures id !in Run(db, ops).trusted && id !in Run(db, ops).untrusted
  {
    if ops != [] {
      var first, op := ops[..|ops| - 1], ops[|ops| - 1];
      assert ops == first + [op];
      BarredForSevenDays(db, first, id);
      RunKeepsSound(db, first);
      if Subject(op) == id {
        BarredStays(Run(db, first), op, id);
      } else {
        OthersStay(Run(db, first), op, id);
      }
    }
  }

  /**
   The seven days start with the blacklisting itself, except for a demoted node, for which they
   start with the contact that demoted it.
   */
  lemma SevenDaysFrom(db: Db, id: NodeId, clock: Clock, now: Time)
    requires Sound(db) && (Where(db, id).Trusted? || Where(db, id).Untrusted?)
    ensures var node := Where(db, id).node;
            var start := if IsDemoted(node) then node.lastContact.value.time
                         else if Where(db, id).Trusted? then clock.first else clock.second;
            Barred(Where(Step(db, SetBlacklisted(id, clock)), id), now) <==> now <= start + 604800
  {
    BlacklistsKnown(db, id, clock);
  }

  /** Once more than seven days have passed, the next insertion finds the node unknown. */
  lemma LetInAgain(db: Db, entry: Entry, limiter: Limiter, clock: Clock)
    requires Sound(db) && Where(db, entry.id).OnBlacklist? && LetsIn(limiter)
    ensures Where(Step(db, InsertTrusted(entry, limiter, clock)), entry.id).Trusted? <==>
            || Where(db, entry.id).node.lastContact.None?
            || clock.first > Where(db, entry.id).node.lastContact.value.time + 604800
  {
    InsertsTrusted(db, entry, limiter, clock);
  }
}
