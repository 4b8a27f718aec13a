/** The node database as an object over three node tables. */
module NodeDatabaseObject {
  import opened NodeTable
  import opened NodeDatabase
  import opened Wrappers

  /** Every operation does to the tables what it does to three plain maps. */
  class Database {
    const trusted: NodeTable
    const untrusted: NodeTable
    const blacklisted: NodeTable

    ghost predicate Valid()
      reads this, trusted, untrusted, blacklisted
    {
      && trusted != untrusted && trusted != blacklisted && untrusted != blacklisted
      && trusted.Valid() && untrusted.Valid() && blacklisted.Valid()
    }

    ghost function View(): Db
      reads this, trusted, untrusted, blacklisted
      requires Valid()
    {
      Db(trusted.Map(), untrusted.Map(), blacklisted.Map())
    }

    constructor ()
      ensures Valid() && fresh(trusted) && fresh(untrusted) && fresh(blacklisted)
      ensures View() == Db(map[], map[], map[])
    {
      trusted := new NodeTable();
      untrusted := new NodeTable();
      blacklisted := new NodeTable();
    }

    method Remove(id: NodeId) returns (removed: Option<Node>)
      requires Valid()
      modifies trusted, untrusted, blacklisted
      ensures Valid() && View() == Removed(old(View()), id)
      ensures removed == RemovedNode(old(View()), id)
    {
      removed := trusted.RemoveWithId(id);
      if removed.None? {
        removed := untrusted.RemoveWithId(id);
        if removed.None? {
          removed := blacklisted.RemoveWithId(id);
        }
      }
    }

    /** Returns whether the node is blacklisted now. */
    method EvaluateBlacklisted(id: NodeId, now: Time) returns (verdict: bool)
      requires Valid()
      modifies blacklisted
      ensures Valid() && View() == Evaluated(old(View()), id, now)
      ensures verdict == StaysBlacklisted(old(View()), id, now)
    {
      var node := blacklisted.Get(id);
      if node.None? {
        return false;
      }
      if node.value.lastContact.None? || Elapsed(node.value.lastContact.value.time, now, BLACKLISTED_LIFETIME) {
        var _ := blacklisted.RemoveWithId(id);
        return false;
      }
      verdict := true;
    }

    /** `insert_ip_limit`, with the limiter's answers given. */
    method InsertIpLimit(limiter: Limiter) returns (allowed: bool)
      requires Valid()
      modifies trusted, untrusted, blacklisted
      ensures Valid() && View() == Evicted(old(View()), limiter.verdict)
      ensures allowed == Allowed(limiter)
    {
      match limiter.verdict {
        case AlreadyExists => return true;
        case QuotaNotEnough => return false;
        case QuotaEnough =>
        case OccupyIp(id) => var _ := Remove(id);
        case Evict(id) => var _ := Remove(id);
      }
      allowed := limiter.inserted;
    }

    /** `promote_with_untrusted`, with the limiter's verdict given. */
    method PromoteWithUntrusted(id: NodeId, verdict: Verdict) returns (node: Option<Node>)
      requires Valid()
      modifies trusted, untrusted, blacklisted
      ensures Valid() && View() == TakenOut(old(View()), id, verdict)
      ensures node == TakenNode(old(View()), id, verdict)
    {
      match verdict {
        case AlreadyExists =>
        case QuotaNotEnough => return None;
        case QuotaEnough =>
        case OccupyIp(evictee) => var _ := Remove(evictee);
        case Evict(evictee) => var _ := Remove(evictee);
      }
      node := untrusted.RemoveWithId(id);
    }

    method InsertWithToken(entry: Entry, token: nat, limiter: Limiter, clock: Clock)
      requires Valid()
      modifies trusted, untrusted, blacklisted
      ensures Valid() && View() == InsertedWithToken(old(View()), entry, token, limiter, clock)
    {
      var listed := EvaluateBlacklisted(entry.id, clock.first);
      if listed {
        return;
      }
      var node := FreshNode(entry).(lastContact := Some(Success(clock.second)),
                                    lastConnected := Some(Success(clock.third)), streamToken := Some(token));
      var known := trusted.Contains(node.id);
      var allowed := InsertIpLimit(limiter);
      if allowed {
        if known {
          trusted.AddNode(node, false);
        } else {
          untrusted.AddNode(node, false);
        }
      }
    }

    method InsertWithConditionalPromotion(entry: Entry, limiter: Limiter, clock: Clock)
      requires Valid()
      modifies trusted, untrusted, blacklisted
      ensures Valid() && View() == InsertedWithPromotion(old(View()), entry, limiter, clock)
    {
      var listed := EvaluateBlacklisted(entry.id, clock.first);
      if listed {
        return;
      }
      var node := FreshNode(entry).(lastContact := Some(Success(clock.second)));
      var existing := untrusted.Get(node.id);
      if existing.Some? {
        if existing.value.lastContact.Some? && existing.value.lastContact.value.Demoted? {
          return;
        }
        var known := PromoteWithUntrusted(node.id, limiter.verdict);
        if known.Some? {
          var kept := node.(lastConnected := known.value.lastConnected, streamToken := known.value.streamToken);
          trusted.AddNode(kept, false);
        }
      } else {
        var allowed := InsertIpLimit(limiter);
        if allowed {
          trusted.UpdateLastContact(node);
        }
      }
    }

    method InsertTrusted(entry: Entry, limiter: Limiter, clock: Clock)
      requires Valid()
      modifies trusted, untrusted, blacklisted
      ensures Valid() && View() == InsertedTrusted(old(View()), entry, limiter, clock)
    {
      var listed := EvaluateBlacklisted(entry.id, clock.first);
      if listed {
        return;
      }
      var already := trusted.Contains(entry.id);
      if already {
        return;
      }
      var node := FreshNode(entry);
      var demoted := untrusted.Contains(node.id);
      if demoted {
        var known := PromoteWithUntrusted(node.id, limiter.verdict);
        if known.Some? {
          trusted.AddNode(node.(lastContact := known.value.lastContact, lastConnected := known.value.lastConnected,
                                streamToken := known.value.streamToken), false);
        }
      } else {
        var allowed := InsertIpLimit(limiter);
        if allowed {
          trusted.AddNode(node, false);
        }
      }
    }

    method NoteFailure(id: NodeId, byConnection: bool, trustedOnly: bool, clock: Clock)
      requires Valid()
      modifies trusted, untrusted
      ensures Valid() && View() == NotedFailure(old(View()), id, byConnection, trustedOnly, clock)
    {
      trusted.NoteUnsuccessContact(id, byConnection, Some(Failure(clock.first)));
      if !trustedOnly {
        untrusted.NoteUnsuccessContact(id, byConnection, Some(Failure(clock.second)));
      }
    }

    method NoteDemoted(id: NodeId, byConnection: bool, clock: Clock)
      requires Valid() && id !in trusted.Map()
      modifies untrusted
      ensures Valid() && View() == NotedDemoted(old(View()), id, byConnection, clock)
    {
      untrusted.NoteUnsuccessContact(id, byConnection, Some(Demoted(clock.first)));
    }

    method NoteSuccess(id: NodeId, token: Option<nat>, trustedOnly: bool, clock: Clock)
      requires Valid()
      modifies trusted, untrusted
      ensures Valid() && View() == NotedContact(old(View()), id, token, trustedOnly, clock)
    {
      trusted.NoteSuccess(id, token.Some?, token, clock.first, clock.second);
      if !trustedOnly {
        untrusted.NoteSuccess(id, token.Some?, token, clock.third, clock.fourth);
      }
    }

    /** The loop of `promote`: for each id, the clock reading and the limiter's verdict. */
    method Promote(ids: seq<NodeId>, due: Time, now: seq<Time>, verdicts: seq<Verdict>)
      requires Valid() && |now| == |verdicts| == |ids|
      modifies trusted, untrusted, blacklisted
      ensures Valid()
      ensures View() == Run(old(View()), seq(|ids|, i requires 0 <= i < |ids| =>
                PromoteOne(ids[i], due, now[i], verdicts[i])))
    {
      ghost var ops := seq(|ids|, i requires 0 <= i < |ids| => PromoteOne(ids[i], due, now[i], verdicts[i]));
      for i := 0 to |ids|
        invariant Valid() && View() == Run(old(View()), ops[..i])
      {
        PromoteNode(ids[i], due, now[i], verdicts[i]);
        assert ops[..i + 1][..i] == ops[..i];
      }
      assert ops[..|ids|] == ops;
    }

    method PromoteNode(id: NodeId, due: Time, now: Time, verdict: Verdict)
      requires Valid()
      modifies trusted, untrusted, blacklisted
      ensures Valid() && View() == Promoted(old(View()), id, due, now, verdict)
    {
      var already := trusted.Contains(id);
      if already {
        return;
      }
      var node := untrusted.Get(id);
      if node.Some? && Due(node.value, now, due) {
        var removed := untrusted.RemoveWithId(id);
        var _ := PromoteWithUntrusted(id, verdict);
        trusted.AddNode(removed.value.(lastContact := removed.value.lastConnected), false);
      }
    }

    method Demote(id: NodeId)
      requires Valid()
      modifies trusted, untrusted
      ensures Valid() && View() == DemotedNode(old(View()), id)
    {
      var removed := trusted.RemoveWithId(id);
      if removed.Some? {
        untrusted.AddNode(removed.value, false);
      }
    }

    method SetTag(id: NodeId, key: string, value: string)
      requires Valid()
      modifies trusted, untrusted
      ensures Valid() && View() == WithTag(old(View()), id, key, value)
    {
      var found := trusted.SetTag(id, key, value);
      if !found {
        var _ := untrusted.SetTag(id, key, value);
      }
    }

    method SetBlacklisted(id: NodeId, clock: Clock)
      requires Valid()
      modifies trusted, untrusted, blacklisted
      ensures Valid() && View() == Blacklisted(old(View()), id, clock)
    {
      NoteFailure(id, true, false, clock);
      var node := Remove(id);
      if node.Some? {
        blacklisted.AddNode(node.value, false);
      }
    }

    /** Any one operation. */
    method Perform(op: Operation)
      requires Valid() && (op.NoteDemoted? ==> op.id !in trusted.Map())
      modifies trusted, untrusted, blacklisted
      ensures Valid() && View() == Step(old(View()), op)
    {
      match op {
        case InsertWithToken(entry, token, limiter, clock) => InsertWithToken(entry, token, limiter, clock);
        case InsertWithConditionalPromotion(entry, limiter, clock) =>
          InsertWithConditionalPromotion(entry, limiter, clock);
        case InsertTrusted(entry, limiter, clock) => InsertTrusted(entry, limiter, clock);
        case NoteFailure(id, byConnection, trustedOnly, clock) => NoteFailure(id, byConnection, trustedOnly, clock);
        case NoteDemoted(id, byConnection, clock) => NoteDemoted(id, byConnection, clock);
        case NoteSuccess(id, token, trustedOnly, clock) => NoteSuccess(id, token, trustedOnly, clock);
        case PromoteOne(id, due, now, verdict) => PromoteNode(id, due, now, verdict);
        case Demote(id) => Demote(id);
        case Remove(id) => var _ := Remove(id);
        case SetTag(id, key, value) => SetTag(id, key, value);
        case SetBlacklisted(id, clock) => SetBlacklisted(id, clock);
        case EvaluateBlacklisted(id, now) => var _ := EvaluateBlacklisted(id, now);
      }
    }

    /**
     Any sequence of operations, from a database with disjoint tables: they stay disjoint. It stops
     at an operation whose assertion fails.
     */
    method PerformAll(ops: seq<Operation>) returns (done: nat)
      requires Valid() && Sound(View())
      modifies trusted, untrusted, blacklisted
      ensures Valid() && Sound(View()) && done <= |ops|
      ensures View() == Run(old(View()), ops[..done])
      ensures done < |ops| ==> ops[done].NoteDemoted? && ops[done].id in View().trusted
    {
      done := 0;
      while done < |ops|
        invariant done <= |ops| && Valid() && Sound(View()) && View() == Run(old(View()), ops[..done])
      {
        var op := ops[done];
        if op.NoteDemoted? {
          var known := trusted.Contains(op.id);
          if known {
            return;
          }
        }
        StepKeepsSound(View(), op);
        assert ops[..done + 1][..done] == ops[..done];
        Perform(op);
        done := done + 1;
      }
    }
  }
}
