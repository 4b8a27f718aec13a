/**
 The node database: trusted, untrusted and blacklisted tables. What the IP limiter answers, which
 node it evicts and what the clock shows are arguments of the operations.
 */
module NodeDatabase {
  import opened NodeTable
  import opened Wrappers

  datatype Entry = Entry(id: NodeId, endpoint: nat)

  /** What the limiter says about inserting a node, and which node it wants evicted. */
  datatype Verdict = AlreadyExists | QuotaNotEnough | QuotaEnough | OccupyIp(evictee: NodeId) | Evict(evictee: NodeId)

  /** The answers of the limiter during one operation: its verdict, then whether it took the node. */
  datatype Limiter = Limiter(verdict: Verdict, inserted: bool)

  /** Readings of the clock during one operation, in the order they are taken. */
  datatype Clock = Clock(first: Time, second: Time, third: Time, fourth: Time)

  /** Seven days, in seconds. */
  const BLACKLISTED_LIFETIME: Time := 7 * 24 * 3600

  // ---------------------------------------------------------------------------------------
  // The operations on three plain maps
  // ---------------------------------------------------------------------------------------

  datatype Db = Db(trusted: NodeMap, untrusted: NodeMap, blacklisted: NodeMap)

  function Find(m: NodeMap, id: NodeId): Option<Node> {
    if id in m then Some(m[id]) else None
  }

  /** More than `limit` has passed between `time` and `now`. */
  predicate Elapsed(time: Time, now: Time, limit: Time) {
    now >= time && now - time > limit
  }

  /** The node is looked for among the trusted, then the untrusted, then the blacklisted. */
  function Removed(db: Db, id: NodeId): Db {
    if id in db.trusted then db.(trusted := db.trusted - {id})
    else if id in db.untrusted then db.(untrusted := db.untrusted - {id})
    else db.(blacklisted := db.blacklisted - {id})
  }

  function RemovedNode(db: Db, id: NodeId): Option<Node> {
    if id in db.trusted then Some(db.trusted[id])
    else if id in db.untrusted then Some(db.untrusted[id])
    else Find(db.blacklisted, id)
  }

  /** A blacklisted node stays blacklisted for its lifetime after a known last contact. */
  predicate StaysBlacklisted(db: Db, id: NodeId, now: Time) {
    && id in db.blacklisted && db.blacklisted[id].lastContact.Some?
    && !Elapsed(db.blacklisted[id].lastContact.value.time, now, BLACKLISTED_LIFETIME)
  }

  function Evaluated(db: Db, id: NodeId, now: Time): Db {
    if StaysBlacklisted(db, id, now) then db else db.(blacklisted := db.blacklisted - {id})
  }

  function Evicted(db: Db, verdict: Verdict): Db {
    if verdict.OccupyIp? || verdict.Evict? then Removed(db, verdict.evictee) else db
  }

  predicate Allowed(limiter: Limiter) {
    limiter.verdict.AlreadyExists? || (!limiter.verdict.QuotaNotEnough? && limiter.inserted)
  }

  function FreshNode(entry: Entry): Node {
    Node(entry.id, entry.endpoint, None, None, None, map[])
  }

  function InsertedWithToken(db: Db, entry: Entry, token: nat, limiter: Limiter, clock: Clock): Db {
    if StaysBlacklisted(db, entry.id, clock.first) then db
    else
      var db := Evaluated(db, entry.id, clock.first);
      var node := FreshNode(entry).(lastContact := Some(Success(clock.second)),
                                    lastConnected := Some(Success(clock.third)), streamToken := Some(token));
      var after := Evicted(db, limiter.verdict);
      if !Allowed(limiter) then after
      else if entry.id in db.trusted then after.(trusted := Added(after.trusted, node, false))
      else after.(untrusted := Added(after.untrusted, node, false))
  }

  /** The database after `promote_with_untrusted`, which takes the node out of the untrusted table. */
  function TakenOut(db: Db, id: NodeId, verdict: Verdict): Db {
    if verdict.QuotaNotEnough? then db
    else
      var after := Evicted(db, verdict);
      after.(untrusted := after.untrusted - {id})
  }

  /** The node `promote_with_untrusted` returns: none when it was the one evicted. */
  function TakenNode(db: Db, id: NodeId, verdict: Verdict): Option<Node> {
    if verdict.QuotaNotEnough? then None else Find(Evicted(db, verdict).untrusted, id)
  }

  function Promotable(db: Db, entry: Entry, limiter: Limiter, node: Node, keepContact: bool): Db {
    var after := TakenOut(db, entry.id, limiter.verdict);
    match TakenNode(db, entry.id, limiter.verdict)
    case None => after
    case Some(known) =>
      var node := node.(lastConnected := known.lastConnected, streamToken := known.streamToken,
                        lastContact := if keepContact then known.lastContact else node.lastContact);
      after.(trusted := Added(after.trusted, node, false))
  }

  function InsertedWithPromotion(db: Db, entry: Entry, limiter: Limiter, clock: Clock): Db {
    if StaysBlacklisted(db, entry.id, clock.first) then db
    else
      var db := Evaluated(db, entry.id, clock.first);
      var node := FreshNode(entry).(lastContact := Some(Success(clock.second)));
      if entry.id in db.untrusted then
        if Reputation(db.untrusted[entry.id].lastContact) == DEMOTED then db
        else Promotable(db, entry, limiter, node, false)
      else
        var after := Evicted(db, limiter.verdict);
        if Allowed(limiter) then after.(trusted := ContactUpdated(after.trusted, node)) else after
  }

  function InsertedTrusted(db: Db, entry: Entry, limiter: Limiter, clock: Clock): Db {
    if StaysBlacklisted(db, entry.id, clock.first) then db
    else
      var db := Evaluated(db, entry.id, clock.first);
      if entry.id in db.trusted then db
      else if entry.id in db.untrusted then Promotable(db, entry, limiter, FreshNode(entry), true)
      else
        var after := Evicted(db, limiter.verdict);
        if Allowed(limiter) then after.(trusted := Added(after.trusted, FreshNode(entry), false)) else after
  }

  function NotedFailure(db: Db, id: NodeId, byConnection: bool, trustedOnly: bool, clock: Clock): Db {
    Db(NotedUnsuccess(db.trusted, id, byConnection, Some(Failure(clock.first))),
       if trustedOnly then db.untrusted
       else NotedUnsuccess(db.untrusted, id, byConnection, Some(Failure(clock.second))),
       db.blacklisted)
  }

  function Blacklisted(db: Db, id: NodeId, clock: Clock): Db {
    var noted := NotedFailure(db, id, true, false, clock);
    match RemovedNode(noted, id)
    case None => noted
    case Some(node) =>
      var after := Removed(noted, id);
      after.(blacklisted := Added(after.blacklisted, node, false))
  }

  /** The node has been connected successfully for longer than `due`. */
  predicate Due(node: Node, now: Time, due: Time) {
    node.lastConnected.Some? && node.lastConnected.value.Success? && Elapsed(node.lastConnected.value.time, now, due)
  }

  /** One turn of `promote`; the node is taken out before the limiter is asked. */
  function Promoted(db: Db, id: NodeId, due: Time, now: Time, verdict: Verdict): Db {
    if id in db.trusted || id !in db.untrusted || !Due(db.untrusted[id], now, due) then db
    else
      var node := db.untrusted[id];
      var after := TakenOut(db.(untrusted := db.untrusted - {id}), id, verdict);
      after.(trusted := Added(after.trusted, node.(lastContact := node.lastConnected), false))
  }

  function DemotedNode(db: Db, id: NodeId): Db {
    if id !in db.trusted then db
    else Db(db.trusted - {id}, Added(db.untrusted, db.trusted[id], false), db.blacklisted)
  }

  function NotedDemoted(db: Db, id: NodeId, byConnection: bool, clock: Clock): Db {
    db.(untrusted := NotedUnsuccess(db.untrusted, id, byConnection, Some(Demoted(clock.first))))
  }

  function NotedContact(db: Db, id: NodeId, token: Option<nat>, trustedOnly: bool, clock: Clock): Db {
    Db(NotedSuccess(db.trusted, id, token.Some?, token, clock.first, clock.second),
       if trustedOnly then db.untrusted
       else NotedSuccess(db.untrusted, id, token.Some?, token, clock.third, clock.fourth),
       db.blacklisted)
  }

  function WithTag(db: Db, id: NodeId, key: string, value: string): Db {
    if id in db.trusted then db.(trusted := Tagged(db.trusted, id, key, value))
    else db.(untrusted := Tagged(db.untrusted, id, key, value))
  }

  datatype Operation =
    | InsertWithToken(entry: Entry, token: nat, limiter: Limiter, clock: Clock)
    | InsertWithConditionalPromotion(entry: Entry, limiter: Limiter, clock: Clock)
    | InsertTrusted(entry: Entry, limiter: Limiter, clock: Clock)
    | NoteFailure(id: NodeId, byConnection: bool, trustedOnly: bool, clock: Clock)
    | NoteDemoted(id: NodeId, byConnection: bool, clock: Clock)
    | NoteSuccess(id: NodeId, maybeToken: Option<nat>, trustedOnly: bool, clock: Clock)
    | PromoteOne(id: NodeId, due: Time, now: Time, verdict: Verdict)
    | Demote(id: NodeId)
    | Remove(id: NodeId)
    | SetTag(id: NodeId, key: string, value: string)
    | SetBlacklisted(id: NodeId, clock: Clock)
    | EvaluateBlacklisted(id: NodeId, now: Time)

  function Step(db: Db, op: Operation): Db {
    match op
    case InsertWithToken(entry, token, limiter, clock) => InsertedWithToken(db, entry, token, limiter, clock)
    case InsertWithConditionalPromotion(entry, limiter, clock) => InsertedWithPromotion(db, entry, limiter, clock)
    case InsertTrusted(entry, limiter, clock) => InsertedTrusted(db, entry, limiter, clock)
    case NoteFailure(id, byConnection, trustedOnly, clock) => NotedFailure(db, id, byConnection, trustedOnly, clock)
    case NoteDemoted(id, byConnection, clock) => NotedDemoted(db, id, byConnection, clock)
    case NoteSuccess(id, token, trustedOnly, clock) => NotedContact(db, id, token, trustedOnly, clock)
    case PromoteOne(id, due, now, verdict) => Promoted(db, id, due, now, verdict)
    case Demote(id) => DemotedNode(db, id)
    case Remove(id) => Removed(db, id)
    case SetTag(id, key, value) => WithTag(db, id, key, value)
    case SetBlacklisted(id, clock) => Blacklisted(db, id, clock)
    case EvaluateBlacklisted(id, now) => Evaluated(db, id, now)
  }

  // ---------------------------------------------------------------------------------------
  // The tables stay disjoint
  // ---------------------------------------------------------------------------------------

  ghost predicate Disjoint(db: Db) {
    && db.trusted.Keys !! db.untrusted.Keys
    && db.trusted.Keys !! db.blacklisted.Keys
    && db.untrusted.Keys !! db.blacklisted.Keys
  }

  /** The keys of `after` are among those of `db`, table by table. */
  ghost predicate Shrinks(db: Db, after: Db) {
    && after.trusted.Keys <= db.trusted.Keys
    && after.untrusted.Keys <= db.untrusted.Keys
    && after.blacklisted.Keys <= db.blacklisted.Keys
  }

  lemma EvictedShrinks(db: Db, verdict: Verdict)
    ensures Shrinks(db, Evicted(db, verdict))
  {
  }

  lemma EvaluatedShrinks(db: Db, id: NodeId, now: Time)
    ensures Shrinks(db, Evaluated(db, id, now))
    ensures !StaysBlacklisted(db, id, now) ==> id !in Evaluated(db, id, now).blacklisted
  {
  }

  lemma InsertWithTokenDisjoint(db: Db, entry: Entry, token: nat, limiter: Limiter, clock: Clock)
    requires Disjoint(db)
    ensures Disjoint(InsertedWithToken(db, entry, token, limiter, clock))
  {
    EvaluatedShrinks(db, entry.id, clock.first);
    EvictedShrinks(Evaluated(db, entry.id, clock.first), limiter.verdict);
  }

  lemma PromotableDisjoint(db: Db, entry: Entry, limiter: Limiter, node: Node, keepContact: bool)
    requires Disjoint(db) && entry.id in db.untrusted && node.id == entry.id
    ensures Disjoint(Promotable(db, entry, limiter, node, keepContact))
  {
  }

  lemma InsertWithPromotionDisjoint(db: Db, entry: Entry, limiter: Limiter, clock: Clock)
    requires Disjoint(db)
    ensures Disjoint(InsertedWithPromotion(db, entry, limiter, clock))
  {
    var evaluated := Evaluated(db, entry.id, clock.first);
    EvaluatedShrinks(db, entry.id, clock.first);
    EvictedShrinks(evaluated, limiter.verdict);
    if entry.id in evaluated.untrusted {
      var node := FreshNode(entry).(lastContact := Some(Success(clock.second)));
      PromotableDisjoint(evaluated, entry, limiter, node, false);
    }
  }

  lemma InsertTrustedDisjoint(db: Db, entry: Entry, limiter: Limiter, clock: Clock)
    requires Disjoint(db)
    ensures Disjoint(InsertedTrusted(db, entry, limiter, clock))
  {
    var evaluated := Evaluated(db, entry.id, clock.first);
    EvaluatedShrinks(db, entry.id, clock.first);
    EvictedShrinks(evaluated, limiter.verdict);
    if entry.id in evaluated.untrusted {
      PromotableDisjoint(evaluated, entry, limiter, FreshNode(entry), true);
    }
  }

  lemma PromoteDisjoint(db: Db, id: NodeId, due: Time, now: Time, verdict: Verdict)
    requires Disjoint(db) && Keyed(db)
    ensures Disjoint(Promoted(db, id, due, now, verdict))
  {
    EvictedShrinks(db.(untrusted := db.untrusted - {id}), verdict);
  }

  lemma BlacklistDisjoint(db: Db, id: NodeId, clock: Clock)
    requires Disjoint(db) && Keyed(db)
    ensures Disjoint(Blacklisted(db, id, clock))
  {
  }

  /** Nodes are filed under their own ids. */
  ghost predicate Keyed(db: Db) {
    && (forall id | id in db.trusted :: db.trusted[id].id == id)
    && (forall id | id in db.untrusted :: db.untrusted[id].id == id)
    && (forall id | id in db.blacklisted :: db.blacklisted[id].id == id)
  }

  lemma EvaluatedKeepsKeyed(db: Db, id: NodeId, now: Time)
    requires Keyed(db)
    ensures Keyed(Evaluated(db, id, now))
  {
  }

  lemma InsertWithTokenKeepsKeyed(db: Db, entry: Entry, token: nat, limiter: Limiter, clock: Clock)
    requires Keyed(db)
    ensures Keyed(InsertedWithToken(db, entry, token, limiter, clock))
  {
    EvaluatedKeepsKeyed(db, entry.id, clock.first);
    EvictedKeepsKeyed(Evaluated(db, entry.id, clock.first), limiter.verdict);
  }

  lemma InsertWithPromotionKeepsKeyed(db: Db, entry: Entry, limiter: Limiter, clock: Clock)
    requires Keyed(db)
    ensures Keyed(InsertedWithPromotion(db, entry, limiter, clock))
  {
    var evaluated := Evaluated(db, entry.id, clock.first);
    EvaluatedKeepsKeyed(db, entry.id, clock.first);
    EvictedKeepsKeyed(evaluated, limiter.verdict);
    var node := FreshNode(entry).(lastContact := Some(Success(clock.second)));
    PromotableKeepsKeyed(evaluated, entry, limiter, node, false);
  }

  lemma InsertTrustedKeepsKeyed(db: Db, entry: Entry, limiter: Limiter, clock: Clock)
    requires Keyed(db)
    ensures Keyed(InsertedTrusted(db, entry, limiter, clock))
  {
    var evaluated := Evaluated(db, entry.id, clock.first);
    EvaluatedKeepsKeyed(db, entry.id, clock.first);
    EvictedKeepsKeyed(evaluated, limiter.verdict);
    PromotableKeepsKeyed(evaluated, entry, limiter, FreshNode(entry), true);
  }

  lemma EvictedKeepsKeyed(db: Db, verdict: Verdict)
    requires Keyed(db)
    ensures Keyed(Evicted(db, verdict))
  {
  }

  lemma PromotableKeepsKeyed(db: Db, entry: Entry, limiter: Limiter, node: Node, keepContact: bool)
    requires Keyed(db)
    ensures Keyed(Promotable(db, entry, limiter, node, keepContact))
  {
    EvictedKeepsKeyed(db, limiter.verdict);
  }

  lemma BlacklistKeepsKeyed(db: Db, id: NodeId, clock: Clock)
    requires Keyed(db)
    ensures Keyed(Blacklisted(db, id, clock))
  {
  }

  lemma PromoteKeepsKeyed(db: Db, id: NodeId, due: Time, now: Time, verdict: Verdict)
    requires Keyed(db)
    ensures Keyed(Promoted(db, id, due, now, verdict))
  {
    EvictedKeepsKeyed(db.(untrusted := db.untrusted - {id}), verdict);
  }

  lemma StepKeepsKeyed(db: Db, op: Operation)
    requires Keyed(db)
    ensures Keyed(Step(db, op))
  {
    match op
    case InsertWithToken(entry, token, limiter, clock) => InsertWithTokenKeepsKeyed(db, entry, token, limiter, clock);
    case InsertWithConditionalPromotion(entry, limiter, clock) =>
      InsertWithPromotionKeepsKeyed(db, entry, limiter, clock);
    case InsertTrusted(entry, limiter, clock) => InsertTrustedKeepsKeyed(db, entry, limiter, clock);
    case PromoteOne(id, due, now, verdict) => PromoteKeepsKeyed(db, id, due, now, verdict);
    case SetBlacklisted(id, clock) => BlacklistKeepsKeyed(db, id, clock);
    case _ =>
  }

  /** Whatever the limiter answers and whichever node it evicts, an operation keeps the tables disjoint. */
  lemma StepKeepsDisjoint(db: Db, op: Operation)
    requires Disjoint(db) && Keyed(db)
    ensures Disjoint(Step(db, op))
  {
    match op
    case InsertWithToken(entry, token, limiter, clock) => InsertWithTokenDisjoint(db, entry, token, limiter, clock);
    case InsertWithConditionalPromotion(entry, limiter, clock) =>
      InsertWithPromotionDisjoint(db, entry, limiter, clock);
    case InsertTrusted(entry, limiter, clock) => InsertTrustedDisjoint(db, entry, limiter, clock);
    case PromoteOne(id, due, now, verdict) => PromoteDisjoint(db, id, due, now, verdict);
    case SetBlacklisted(id, clock) => BlacklistDisjoint(db, id, clock);
    case EvaluateBlacklisted(id, now) => EvaluatedShrinks(db, id, now);
    case _ =>
  }

  /** Disjoint tables with nodes filed under their own ids. */
  ghost predicate Sound(db: Db) {
    Disjoint(db) && Keyed(db)
  }

  lemma StepKeepsSound(db: Db, op: Operation)
    requires Sound(db)
    ensures Sound(Step(db, op))
  {
    StepKeepsDisjoint(db, op);
    StepKeepsKeyed(db, op);
  }

  function Run(db: Db, ops: seq<Operation>): Db {
    if ops == [] then db else Step(Run(db, ops[..|ops| - 1]), ops[|ops| - 1])
  }

  /** From disjoint tables, every sequence of operations leads to disjoint tables. */
  lemma {:induction false} RunKeepsSound(db: Db, ops: seq<Operation>)
    requires Sound(db)
    ensures Sound(Run(db, ops))
  {
    if ops != [] {
      RunKeepsSound(db, ops[..|ops| - 1]);
      StepKeepsSound(Run(db, ops[..|ops| - 1]), ops[|ops| - 1]);
    }
  }
}
