/** What someone who waits for a task of the channel is promised, over every run. */
module TaskChannelWaits {
  import opened TaskChannel
  import opened TaskChannelSafety
  import opened Wrappers

  // ---------------------------------------------------------------------------------------
  // Handing out
  // ---------------------------------------------------------------------------------------

  predicate Awaited(pending: seq<Wait>, key: Key) {
    exists i :: 0 <= i < |pending| && pending[i].key == key
  }

  /** `cond` is what a waiter for `key` would be told to wait on. */
  predicate Registered(info: TaskInfo, key: Key, cond: CondVar) {
    Wait(key, cond) in info.pending || (info.current == Some(key) && info.currentWaits == Some(cond))
  }

  /**
   What is handed out is registered under the key that was asked for, and nothing is handed out
   exactly when the key is not current, has no wait and has no task in the queue.
   */
  lemma HandsOutOwn(trace: seq<State>, actions: seq<Action>, i: nat, key: Key)
    requires IsRun(trace, actions) && i < |actions| && actions[i] == WaitFor(key)
    ensures var handed := WaitForResult(trace[i], key);
            && (handed.Some? ==> Registered(trace[i + 1].info, key, handed.value))
            && (handed.None? <==>
                && trace[i].info.current != Some(key)
                && !Awaited(trace[i].info.pending, key)
                && forall t: Task | Some(t) in trace[i].queue :: t.key != key)
  {
    HandsOut(trace[i], key);
  }

  lemma HandsOut(s: State, key: Key)
    ensures var handed := WaitForResult(s, key);
            && (handed.Some? ==> Registered(WaitForStep(s, key).info, key, handed.value))
            && (handed.None? <==>
                && s.info.current != Some(key) && !Awaited(s.info.pending, key)
                && forall t: Task | Some(t) in s.queue :: t.key != key)
  {
    LiveIsQueued(s.queue, key);
    var i, pending := FirstWait(s.info.pending, key), s.info.pending;
    if i < |pending| {
      assert pending[i] == Wait(key, pending[i].cond);
      assert Awaited(pending, key);
    } else {
      assert (pending + [Wait(key, s.nextCond)])[|pending|] == Wait(key, s.nextCond);
    }
  }

  lemma LiveIsQueued(queue: seq<Option<Task>>, key: Key)
    ensures HasLive(queue, key) <==> exists t: Task :: Some(t) in queue && t.key == key
  {
    if HasLive(queue, key) {
      var i :| 0 <= i < |queue| && Matches(queue[i], key);
      assert queue[i] == Some(queue[i].value);
    }
    if t: Task :| Some(t) in queue && t.key == key {
      var i :| 0 <= i < |queue| && queue[i] == Some(t);
      assert Matches(queue[i], key);
    }
  }

  /** Whoever asks again while a condition variable is registered is told to wait on the same one. */
  lemma SameHandedOut(s: State, key: Key, cond: CondVar)
    requires Inv(s) && Enabled(s, WaitFor(key)) && Registered(s.info, key, cond)
    ensures WaitForResult(s, key) == Some(cond) && Next(s, WaitFor(key)) == s
  {
    var pending := s.info.pending;
    if Wait(key, cond) in pending {
      var j :| 0 <= j < |pending| && pending[j] == Wait(key, cond);
      var i := FirstWait(pending, key);
      assert i <= j;
      assert pending[i].key == pending[j].key;
    }
  }

  // ---------------------------------------------------------------------------------------
  // What a step does to one waiter
  // ---------------------------------------------------------------------------------------

  /** The step receives a task with the key. */
  predicate Receives(s: State, a: Action, key: Key) {
    a.Pop? && s.queue != [] && Matches(s.queue[0], key)
  }

  /** The step ends the task received before: another is received, or there is none and the receiver blocks. */
  predicate EndsCurrent(s: State, a: Action) {
    || (a.Pop? && s.queue != [] && s.queue[0].Some?)
    || (a.TryToken? && s.receiver.AtHead? && !s.receiver.tryRecv && s.tokens == [] && s.queue == [])
  }

  /**
   A pending waiter is notified by cancelling its key, becomes the current waiter when a task of
   its key is received, and stays pending under its key through every other step.
   */
  lemma PendingMoves(s: State, a: Action, key: Key, cond: CondVar)
    requires Inv(s) && Enabled(s, a) && !Next(s, a).receiver.Crashed? && Wait(key, cond) in s.info.pending
    ensures var s' := Next(s, a);
            if a == Remove(key) then cond in s'.notified && forall t: Task | Some(t) in s'.queue :: t.key != key
            else if Receives(s, a, key) then s'.info.current == Some(key) && s'.info.currentWaits == Some(cond)
            else Wait(key, cond) in s'.info.pending
  {
    match a
    case Remove(k) => PendingRemoved(s, k, key, cond);
    case Pop => PendingPopped(s, key, cond);
    case _ =>
  }

  lemma PendingRemoved(s: State, k: Key, key: Key, cond: CondVar)
    requires WaitInv(s) && Wait(key, cond) in s.info.pending
    ensures var s' := RemoveStep(s, k);
            if k == key then cond in s'.notified && forall t: Task | Some(t) in s'.queue :: t.key != key
            else Wait(key, cond) in s'.info.pending
  {
    if k == key {
      assert cond in CondsOf(s.info.pending, key);
    }
  }

  lemma PendingPopped(s: State, key: Key, cond: CondVar)
    requires WaitInv(s) && Wait(key, cond) in s.info.pending
    requires s.receiver.HasToken? && !PopStep(s).receiver.Crashed?
    ensures var s' := PopStep(s);
            if s.queue != [] && Matches(s.queue[0], key) then
              s'.info.current == Some(key) && s'.info.currentWaits == Some(cond)
            else Wait(key, cond) in s'.info.pending
  {
    var pending := s.info.pending;
    if s.queue != [] && s.queue[0].Some? {
      var i := FirstWait(pending, s.queue[0].value.key);
      var j :| 0 <= j < |pending| && pending[j] == Wait(key, cond);
      if i < |pending| {
        assert i == |pending| - 1;
        assert j < i ==> pending[..i][j] == Wait(key, cond);
      }
    }
  }

  /** The current waiter is notified when the task received before ends, and not earlier. */
  lemma CurrentMoves(s: State, a: Action, cond: CondVar)
    requires Inv(s) && Enabled(s, a) && !Next(s, a).receiver.Crashed? && s.info.currentWaits == Some(cond)
    ensures var s' := Next(s, a);
            if EndsCurrent(s, a) then cond in s'.notified && s'.info.currentWaits != Some(cond)
            else
              && s'.info.currentWaits == Some(cond) && cond !in s'.notified
              && (s'.info.current == s.info.current || (s'.info.current.None? && a.Remove?))
  {
    assert cond in CurrentCond(s.info);
    if a.Pop? && EndsCurrent(s, a) {
      var i := FirstWait(s.info.pending, s.queue[0].value.key);
      if i < |s.info.pending| {
        assert s.info.pending[i].cond in PendingConds(s.info.pending);
      }
    }
    if a.Remove? {
      NotCurrent(s, a.key, cond);
    }
  }

  lemma NotCurrent(s: State, key: Key, cond: CondVar)
    requires CondInv(s) && s.info.currentWaits == Some(cond)
    ensures cond !in CondsOf(s.info.pending, key)
  {
    assert cond in CurrentCond(s.info);
    assert CondsOf(s.info.pending, key) <= PendingConds(s.info.pending);
  }

  /** Cancelling a key leaves nothing registered under it and everything registered under other keys. */
  lemma RemoveForgets(s: State, key: Key, other: Key, cond: CondVar)
    requires Inv(s) && Enabled(s, Remove(key))
    ensures Registered(Next(s, Remove(key)).info, other, cond) <==> other != key && Registered(s.info, other, cond)
    ensures Next(s, Remove(key)).info.current == if s.info.current == Some(key) then None else s.info.current
  {
  }

  /**
   A call to receive ends exactly when it has received a task, when it took the token of a stop,
   or when it was told not to wait and there was no token.
   */
  lemma CallEndsIff(s: State, a: Action)
    requires Inv(s) && Enabled(s, a) && (a.TryToken? || a.TakeToken? || a.Relock? || a.Pop?)
    requires !Next(s, a).receiver.Crashed?
    ensures Next(s, a).receiver.Idle? <==>
            || |Next(s, a).returned| > |s.returned|
            || (s.tokens != [] && !s.tokens[0] && |Next(s, a).tokens| < |s.tokens|)
            || (s.receiver == AtHead(true) && s.tokens == [])
  {
  }

  /** Whether the call to receive in progress may not wait. */
  function TriesOnly(r: Receiver): Option<bool> {
    match r
    case AtHead(tryRecv) => Some(tryRecv)
    case HasToken(tryRecv) => Some(tryRecv)
    case BlockedLocked => Some(false)
    case BlockedUnlocked => Some(false)
    case TokenUnlocked => Some(false)
    case _ => None
  }

  /**
   While a call to receive goes on it stays of its kind, so that one that may not wait never blocks.
   The receiver takes the locks only at the start of a call and after waiting without them.
   */
  lemma CallGoesOn(s: State, a: Action)
    requires Inv(s) && Enabled(s, a)
    ensures var s' := Next(s, a);
            && (TriesOnly(s.receiver).Some? && TriesOnly(s'.receiver).Some? ==>
                  TriesOnly(s'.receiver) == TriesOnly(s.receiver))
            && (TriesOnly(s.receiver).None? && TriesOnly(s'.receiver).Some? ==>
                  a.StartRecv? && s'.receiver == AtHead(a.tryRecv))
            && (!Locked(s) && Locked(s') ==> a.StartRecv? || a.Relock?)
            && (a.Pop? ==> Locked(s))
  {
  }

  /** The key in use is that of the task received last. */
  ghost predicate CurrentIsLast(s: State) {
    s.info.current.Some? ==>
      && s.returned != [] && s.returned[|s.returned| - 1] < |s.log|
      && s.log[s.returned[|s.returned| - 1]].key == s.info.current.value
  }

  lemma LastKept(s: State, a: Action)
    requires Inv(s) && Enabled(s, a) && !Next(s, a).receiver.Crashed? && CurrentIsLast(s)
    ensures CurrentIsLast(Next(s, a))
  {
  }

  lemma {:induction false} CurrentIsLastReturned(trace: seq<State>, actions: seq<Action>, i: nat)
    requires IsRun(trace, actions) && i < |trace| && !trace[i].receiver.Crashed?
    ensures CurrentIsLast(trace[i])
  {
    if i != 0 {
      CurrentIsLastReturned(trace, actions, i - 1);
      RunKeeps(trace, actions, i - 1);
      LastKept(trace[i - 1], actions[i - 1]);
    }
  }

  // ---------------------------------------------------------------------------------------
  // Runs
  // ---------------------------------------------------------------------------------------

  /** Where a waiter for `key` can be: pending, waiting for the task in use, or notified. */
  ghost predicate Kept(s: State, key: Key, cond: CondVar) {
    || Wait(key, cond) in s.info.pending
    || (s.info.currentWaits == Some(cond) && (s.info.current == Some(key) || s.info.current.None?))
    || cond in s.notified
  }

  lemma NotifiedGrows(s: State, a: Action)
    requires Enabled(s, a)
    ensures s.notified <= Next(s, a).notified
  {
  }

  lemma KeptByStep(s: State, a: Action, key: Key, cond: CondVar)
    requires Inv(s) && Enabled(s, a) && !Next(s, a).receiver.Crashed? && Kept(s, key, cond)
    ensures Kept(Next(s, a), key, cond)
  {
    NotifiedGrows(s, a);
    if Wait(key, cond) in s.info.pending {
      PendingMoves(s, a, key, cond);
    } else if cond !in s.notified {
      CurrentMoves(s, a, cond);
    }
  }

  lemma KeptNext(trace: seq<State>, actions: seq<Action>, i: nat, key: Key, cond: CondVar)
    requires IsRun(trace, actions) && i < |actions| && Kept(trace[i], key, cond) && !trace[i + 1].receiver.Crashed?
    ensures Kept(trace[i + 1], key, cond)
  {
    RunKeeps(trace, actions, i);
    KeptByStep(trace[i], actions[i], key, cond);
  }

  lemma NotCrashedBefore(trace: seq<State>, actions: seq<Action>, i: nat)
    requires IsRun(trace, actions) && i < |actions|
    ensures !trace[i].receiver.Crashed?
  {
    assert Enabled(trace[i], actions[i]);
  }

  lemma {:induction false} KeptByRun(trace: seq<State>, actions: seq<Action>, i: nat, j: nat, key: Key, cond: CondVar)
    requires IsRun(trace, actions) && i <= j < |trace| && Kept(trace[i], key, cond)
    requires !trace[j].receiver.Crashed?
    ensures Kept(trace[j], key, cond)
    decreases j - i
  {
    if i < j {
      var k := j - 1;
      NotCrashedBefore(trace, actions, k);
      KeptByRun(trace, actions, i, k, key, cond);
      KeptNext(trace, actions, k, key, cond);
    }
  }

  /** What was handed out is pending or current right after. */
  lemma KeptAtFirst(trace: seq<State>, actions: seq<Action>, i: nat, key: Key, cond: CondVar)
    requires IsRun(trace, actions) && i < |actions|
    requires actions[i] == WaitFor(key) && WaitForResult(trace[i], key) == Some(cond)
    ensures Kept(trace[i + 1], key, cond) && cond !in trace[i + 1].notified
  {
    RunKeeps(trace, actions, i + 1);
    HandsOut(trace[i], key);
    var s := trace[i + 1];
    assert Kept(s, key, cond);
    assert !s.receiver.Crashed?;
    OnePlace(s, key, cond);
  }

  /**
   A condition variable that `wait_for` handed out is, ever after, pending under the key that was
   asked for and under no other, waiting for the task in use, or notified.
   */
  lemma WaiterNeverLost(trace: seq<State>, actions: seq<Action>, i: nat, j: nat, key: Key, cond: CondVar)
    requires IsRun(trace, actions) && i < j < |trace|
    requires actions[i] == WaitFor(key) && WaitForResult(trace[i], key) == Some(cond)
    requires !trace[j].receiver.Crashed?
    ensures Kept(trace[j], key, cond)
    ensures forall w | w in trace[j].info.pending && w.cond == cond :: w.key == key
    ensures cond in trace[j].notified ==>
              Wait(key, cond) !in trace[j].info.pending && trace[j].info.currentWaits != Some(cond)
  {
    KeptAtFirst(trace, actions, i, key, cond);
    KeptByRun(trace, actions, i + 1, j, key, cond);
    RunKeeps(trace, actions, j);
    OnePlace(trace[j], key, cond);
  }

  lemma OnePlace(s: State, key: Key, cond: CondVar)
    requires WaitInv(s) && CondInv(s) && Kept(s, key, cond)
    ensures forall w | w in s.info.pending && w.cond == cond :: w.key == key
    ensures cond in s.notified ==> Wait(key, cond) !in s.info.pending && s.info.currentWaits != Some(cond)
  {
    forall w | w in s.info.pending && w.cond == cond
      ensures w.key == key
    {
      assert cond in PendingConds(s.info.pending);
      assert cond !in CurrentCond(s.info) && cond !in s.notified;
      SameCond(s.info.pending, w);
    }
    if Wait(key, cond) in s.info.pending {
      assert cond in PendingConds(s.info.pending);
    }
    if s.info.currentWaits == Some(cond) {
      assert cond in CurrentCond(s.info);
    }
  }

  lemma {:induction false} NotifiedStays(trace: seq<State>, actions: seq<Action>, i: nat, j: nat)
    requires IsRun(trace, actions) && i <= j < |trace|
    ensures trace[i].notified <= trace[j].notified
    decreases j - i
  {
    if i < j {
      NotifiedStays(trace, actions, i, j - 1);
      NotifiedGrows(trace[j - 1], actions[j - 1]);
    }
  }

  /** A waiter still pending when its key is cancelled is notified by that very step, for good. */
  lemma CancelNotifies(trace: seq<State>, actions: seq<Action>, m: nat, j: nat, key: Key, cond: CondVar)
    requires IsRun(trace, actions) && m < j < |trace| && actions[m] == Remove(key)
    requires Wait(key, cond) in trace[m].info.pending
    ensures cond in trace[j].notified
  {
    RunKeeps(trace, actions, m);
    PendingMoves(trace[m], actions[m], key, cond);
    NotifiedStays(trace, actions, m + 1, j);
  }

  /** The step tells the waiter that its task is done: cancelled while queued, or over after being received. */
  ghost predicate TellsWaiter(s: State, a: Action, key: Key, cond: CondVar) {
    || (a == Remove(key) && Wait(key, cond) in s.info.pending)
    || (EndsCurrent(s, a) && s.info.currentWaits == Some(cond) && (s.info.current == Some(key) || s.info.current.None?))
  }

  lemma NotifiedByStep(s: State, a: Action, key: Key, cond: CondVar)
    requires Inv(s) && Enabled(s, a) && !Next(s, a).receiver.Crashed? && Kept(s, key, cond)
    requires cond !in s.notified && cond in Next(s, a).notified
    ensures TellsWaiter(s, a, key, cond)
  {
    StepKeeps(s, a);
    if Wait(key, cond) in s.info.pending {
      PendingMoves(s, a, key, cond);
      KeptByStep(s, a, key, cond);
      OnePlace(Next(s, a), key, cond);
    } else {
      CurrentMoves(s, a, cond);
    }
  }

  lemma {:induction false} NotifiedBetween(
      trace: seq<State>, actions: seq<Action>, i: nat, j: nat, key: Key, cond: CondVar) returns (m: nat)
    requires IsRun(trace, actions) && i <= j < |trace| && Kept(trace[i], key, cond) && cond !in trace[i].notified
    requires !trace[j].receiver.Crashed? && cond in trace[j].notified
    ensures i <= m < j && TellsWaiter(trace[m], actions[m], key, cond)
    decreases j - i
  {
    if cond in trace[j - 1].notified {
      m := NotifiedBetween(trace, actions, i, j - 1, key, cond);
    } else {
      m := j - 1;
      KeptByRun(trace, actions, i, m, key, cond);
      RunKeeps(trace, actions, m);
      NotifiedByStep(trace[m], actions[m], key, cond);
    }
  }

  /** Nobody is told too early: a waiter is notified only by a step that ends its own task. */
  lemma NotifiedWhenDone(trace: seq<State>, actions: seq<Action>, i: nat, j: nat, key: Key, cond: CondVar)
      returns (m: nat)
    requires IsRun(trace, actions) && i < j < |trace|
    requires actions[i] == WaitFor(key) && WaitForResult(trace[i], key) == Some(cond)
    requires !trace[j].receiver.Crashed? && cond in trace[j].notified
    ensures i < m < j && TellsWaiter(trace[m], actions[m], key, cond)
  {
    KeptAtFirst(trace, actions, i, key, cond);
    m := NotifiedBetween(trace, actions, i + 1, j, key, cond);
  }
}
