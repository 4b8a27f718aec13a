/** What every run of the task channel keeps, and what it therefore promises. */
module TaskChannelSafety {
  import opened TaskChannel
  import opened Wrappers

  // ---------------------------------------------------------------------------------------
  // The invariant
  // ---------------------------------------------------------------------------------------

  function Trues(tokens: seq<bool>): nat {
    if tokens == [] then 0 else (if tokens[0] then 1 else 0) + Trues(tokens[1..])
  }

  /** The receiver has taken a token and not yet popped the task it stands for. */
  predicate OwesPop(s: State) {
    s.receiver.HasToken? || s.receiver.TokenUnlocked?
  }

  /** One queue slot for every token sent, for every token about to be sent, and for a token taken. */
  ghost predicate CountInv(s: State) {
    && |s.queue| == Trues(s.tokens) + s.inFlight + (if OwesPop(s) then 1 else 0)
    && !s.receiver.Spinning?
    && (s.receiver.BlockedLocked? ==> s.queue != [])
  }

  ghost predicate Increasing(v: seq<nat>) {
    forall i, j | 0 <= i < j < |v| :: v[i] < v[j]
  }

  /**
   The queue is the log from `popped` on with the cancelled tasks blanked, and what was popped
   was either returned, in order, or cancelled.
   */
  ghost predicate Logged(
    queue: seq<Option<Task>>, popped: nat, log: seq<Task>, cancelled: set<nat>, returned: seq<nat>)
  {
    && popped + |queue| == |log|
    && (forall i | 0 <= i < |queue| :: queue[i] == if popped + i in cancelled then None else Some(log[popped + i]))
    && (forall p | p in cancelled :: p < |log|)
    && (forall p: nat | p < popped :: p in returned <==> p !in cancelled)
    && (forall p | p in returned :: p < popped)
    && Increasing(returned)
  }

  ghost predicate LogInv(s: State) {
    Logged(s.queue, s.popped, s.log, s.cancelled, s.returned)
  }

  ghost predicate DistinctWaits(pending: seq<Wait>) {
    forall i, j | 0 <= i < j < |pending| :: pending[i].key != pending[j].key && pending[i].cond != pending[j].cond
  }

  /** Pending keys are distinct, differ from the current key, and each has a task in the queue. */
  ghost predicate WaitInv(s: State) {
    && DistinctWaits(s.info.pending)
    && (forall w | w in s.info.pending :: s.info.current != Some(w.key))
    && (forall w | w in s.info.pending :: HasLive(s.queue, w.key))
  }

  /** Every condition variable handed out is in exactly one place: pending, current or notified. */
  ghost predicate CondInv(s: State) {
    && (forall c: CondVar :: c < s.nextCond <==>
          c in PendingConds(s.info.pending) || c in CurrentCond(s.info) || c in s.notified)
    && PendingConds(s.info.pending) !! CurrentCond(s.info)
    && PendingConds(s.info.pending) !! s.notified
    && CurrentCond(s.info) !! s.notified
  }

  ghost predicate Inv(s: State) {
    !s.receiver.Crashed? ==> CountInv(s) && LogInv(s) && WaitInv(s) && CondInv(s)
  }

  // ---------------------------------------------------------------------------------------
  // Every step keeps it
  // ---------------------------------------------------------------------------------------

  lemma {:induction false} TruesAppend(tokens: seq<bool>, t: bool)
    ensures Trues(tokens + [t]) == Trues(tokens) + (if t then 1 else 0)
  {
    if tokens != [] {
      TruesAppend(tokens[1..], t);
      assert (tokens + [t])[1..] == tokens[1..] + [t];
    }
  }

  lemma CountKept(s: State, a: Action)
    requires Enabled(s, a) && CountInv(s)
    ensures CountInv(Next(s, a))
  {
    match a
    case Notify => TruesAppend(s.tokens, true);
    case Stop => TruesAppend(s.tokens, false);
    case _ =>
  }

  lemma LogPush(s: State, task: Task)
    requires LogInv(s)
    ensures LogInv(s.(queue := s.queue + [Some(task)], inFlight := s.inFlight + 1, log := s.log + [task]))
  {
  }

  lemma LogRemove(s: State, key: Key)
    requires LogInv(s)
    ensures LogInv(RemoveStep(s, key))
  {
    LoggedBlanked(s, key, QueuedWith(s, key));
  }

  lemma LoggedBlanked(s: State, key: Key, queued: set<nat>)
    requires LogInv(s) && queued == QueuedWith(s, key)
    ensures Logged(Blanked(s.queue, key), s.popped, s.log, s.cancelled + queued, s.returned)
  {
  }

  lemma LogPop(s: State)
    requires LogInv(s) && s.receiver.HasToken?
    ensures !PopStep(s).receiver.Crashed? ==> LogInv(PopStep(s))
  {
    if s.queue != [] {
      assert forall i | 0 <= i < |s.queue| - 1 :: s.queue[1..][i] == s.queue[i + 1];
      assert forall k | 0 <= k < |s.returned| :: s.returned[k] in s.returned;
    }
  }

  lemma LogKept(s: State, a: Action)
    requires Enabled(s, a) && LogInv(s)
    ensures !Next(s, a).receiver.Crashed? ==> LogInv(Next(s, a))
  {
    match a
    case Push(task) => LogPush(s, task);
    case Remove(key) => LogRemove(s, key);
    case Pop => LogPop(s);
    case _ =>
  }

  lemma {:induction false} WithoutDistinct(pending: seq<Wait>, key: Key)
    requires DistinctWaits(pending)
    ensures DistinctWaits(Without(pending, key))
  {
    if pending != [] {
      WithoutDistinct(pending[1..], key);
      var rest := Without(pending[1..], key);
      forall j | 0 <= j < |rest|
        ensures pending[0].key != rest[j].key && pending[0].cond != rest[j].cond
      {
        assert rest[j] in pending[1..];
      }
    }
  }

  /** Blanking one key leaves the other keys' tasks in the queue. */
  lemma BlankedKeeps(queue: seq<Option<Task>>, key: Key, other: Key)
    requires HasLive(queue, other) && other != key
    ensures HasLive(Blanked(queue, key), other)
  {
  }

  lemma WaitRemove(s: State, key: Key)
    requires WaitInv(s)
    ensures WaitInv(RemoveStep(s, key))
  {
    WithoutDistinct(s.info.pending, key);
    var s' := RemoveStep(s, key);
    forall w | w in s'.info.pending
      ensures w in s.info.pending && w.key != key && HasLive(s'.queue, w.key)
    {
      BlankedKeeps(s.queue, key, w.key);
    }
  }

  lemma WaitPop(s: State)
    requires WaitInv(s) && s.receiver.HasToken?
    ensures !PopStep(s).receiver.Crashed? ==> WaitInv(PopStep(s))
  {
  }

  lemma WaitWaitFor(s: State, key: Key)
    requires WaitInv(s) && CondInv(s)
    ensures WaitInv(WaitForStep(s, key))
  {
    var pending := s.info.pending;
    forall w | w in pending
      ensures w.cond < s.nextCond
    {
      assert w.cond in PendingConds(pending);
    }
    if FirstWait(pending, key) == |pending| {
      assert forall j | 0 <= j < |pending| :: pending[j] in pending && pending[j].key != key;
    }
  }

  lemma WaitPush(s: State, task: Task)
    requires WaitInv(s)
    ensures WaitInv(s.(queue := s.queue + [Some(task)], inFlight := s.inFlight + 1, log := s.log + [task]))
  {
    forall w | w in s.info.pending
      ensures HasLive(s.queue + [Some(task)], w.key)
    {
      var i :| 0 <= i < |s.queue| && Matches(s.queue[i], w.key);
      assert Matches((s.queue + [Some(task)])[i], w.key);
    }
  }

  lemma WaitKept(s: State, a: Action)
    requires Enabled(s, a) && WaitInv(s) && CondInv(s)
    ensures !Next(s, a).receiver.Crashed? ==> WaitInv(Next(s, a))
  {
    match a
    case Push(task) => WaitPush(s, task);
    case Remove(key) => WaitRemove(s, key);
    case WaitFor(key) => WaitWaitFor(s, key);
    case Pop => WaitPop(s);
    case _ =>
  }

  lemma CondRemove(s: State, key: Key)
    requires WaitInv(s) && CondInv(s)
    ensures CondInv(RemoveStep(s, key))
  {
    var s' := RemoveStep(s, key);
    var dropped := CondsOf(s.info.pending, key);
    if s.info.current != Some(key) && HasLive(s.queue, key) {
      assert PendingConds(s.info.pending) == PendingConds(s'.info.pending) + dropped;
      forall c | c in PendingConds(s'.info.pending)
        ensures c !in dropped
      {
        var w :| w in s'.info.pending && w.cond == c;
        SameCond(s.info.pending, w);
      }
    }
  }

  /** In a list of distinct waits the condition variable determines the wait. */
  lemma SameCond(pending: seq<Wait>, w: Wait)
    requires DistinctWaits(pending) && w in pending
    ensures forall v | v in pending && v.cond == w.cond :: v == w
  {
  }

  lemma CondWaitFor(s: State, key: Key)
    requires CondInv(s)
    ensures CondInv(WaitForStep(s, key))
  {
    var s' := WaitForStep(s, key);
    if |s'.info.pending| > |s.info.pending| {
      assert PendingConds(s'.info.pending) == PendingConds(s.info.pending) + {s.nextCond};
    }
  }

  lemma CondPop(s: State)
    requires WaitInv(s) && CondInv(s) && s.receiver.HasToken?
    ensures !PopStep(s).receiver.Crashed? ==> CondInv(PopStep(s))
  {
    var s', pending := PopStep(s), s.info.pending;
    if s.queue != [] && s.queue[0].Some? && !s'.receiver.Crashed? {
      var i := FirstWait(pending, s.queue[0].value.key);
      if i < |pending| {
        assert pending == pending[..i] + [pending[i]];
        assert PendingConds(pending) == PendingConds(pending[..i]) + {pending[i].cond};
        assert pending[i].cond !in PendingConds(pending[..i]);
      }
    }
  }

  lemma CondKept(s: State, a: Action)
    requires Enabled(s, a) && WaitInv(s) && CondInv(s)
    ensures !Next(s, a).receiver.Crashed? ==> CondInv(Next(s, a))
  {
    match a
    case Remove(key) => CondRemove(s, key);
    case WaitFor(key) => CondWaitFor(s, key);
    case Pop => CondPop(s);
    case _ =>
  }

  lemma StepKeeps(s: State, a: Action)
    requires Inv(s) && Enabled(s, a)
    ensures Inv(Next(s, a))
  {
    CountKept(s, a);
    LogKept(s, a);
    WaitKept(s, a);
    CondKept(s, a);
  }

  // ---------------------------------------------------------------------------------------
  // Runs
  // ---------------------------------------------------------------------------------------

  /** Any interleaving of the steps, from the new channel on. */
  ghost predicate IsRun(trace: seq<State>, actions: seq<Action>) {
    && |trace| == |actions| + 1
    && trace[0] == INIT
    && forall i | 0 <= i < |actions| :: Enabled(trace[i], actions[i]) && trace[i + 1] == Next(trace[i], actions[i])
  }

  lemma {:induction false} RunKeeps(trace: seq<State>, actions: seq<Action>, i: nat)
    requires IsRun(trace, actions) && i < |trace|
    ensures Inv(trace[i])
  {
    if i != 0 {
      RunKeeps(trace, actions, i - 1);
      StepKeeps(trace[i - 1], actions[i - 1]);
    }
  }

  /** The retry branch for an empty queue is never taken, in any interleaving. */
  lemma NeverSpins(trace: seq<State>, actions: seq<Action>, i: nat)
    requires IsRun(trace, actions) && i < |trace|
    ensures !trace[i].receiver.Spinning?
    ensures trace[i].receiver.HasToken? ==> trace[i].queue != []
  {
    RunKeeps(trace, actions, i);
  }

  /**
   Whenever the receiver waits for a token with the locks held, the token is there or a sender is
   about to send one, and sending needs no lock; the step after it lets the receiver go on.
   */
  lemma LockedWaitEnds(trace: seq<State>, actions: seq<Action>, i: nat)
    requires IsRun(trace, actions) && i < |trace| && trace[i].receiver.BlockedLocked?
    ensures Enabled(trace[i], TakeToken) || Enabled(trace[i], Notify)
    ensures Enabled(trace[i], Notify) ==> Enabled(Next(trace[i], Notify), TakeToken)
  {
    RunKeeps(trace, actions, i);
  }

  lemma StepGrows(s: State, a: Action)
    requires Enabled(s, a)
    ensures s.cancelled <= Next(s, a).cancelled
  {
  }

  // ---------------------------------------------------------------------------------------
  // Order and cancellation
  // ---------------------------------------------------------------------------------------

  /** A returned task is the oldest one pushed that was neither returned nor cancelled. */
  lemma ReturnsOldest(s: State)
    requires Inv(s) && Enabled(s, Pop) && |Next(s, Pop).returned| > |s.returned|
    ensures var p := s.popped;
            && Next(s, Pop).returned == s.returned + [p]
            && p < |s.log| && s.queue[0] == Some(s.log[p])
            && p !in s.returned && p !in s.cancelled
            && forall q: nat | q < p :: q in s.returned || q in s.cancelled
  {
  }

  /** A task cancelled while queued is not returned, then or at any later point of the run. */
  lemma CancelledNeverReturned(trace: seq<State>, actions: seq<Action>, i: nat, j: nat, p: nat)
    requires IsRun(trace, actions) && i <= j < |trace| && !trace[j].receiver.Crashed?
    requires p in trace[i].cancelled
    ensures p !in trace[j].returned
  {
    RunKeeps(trace, actions, j);
    CancelledGrow(trace, actions, i, j);
  }

  lemma {:induction false} CancelledGrow(trace: seq<State>, actions: seq<Action>, i: nat, j: nat)
    requires IsRun(trace, actions) && i <= j < |trace|
    ensures trace[i].cancelled <= trace[j].cancelled
    decreases j - i
  {
    if i < j {
      CancelledGrow(trace, actions, i, j - 1);
      StepGrows(trace[j - 1], actions[j - 1]);
    }
  }

  /** The tasks in the queue that are not cancelled. */
  function Live(queue: seq<Option<Task>>): seq<Task> {
    if queue == [] then []
    else (if queue[0].Some? then [queue[0].value] else []) + Live(queue[1..])
  }

  function Keep(tasks: seq<Task>, key: Key): (left: seq<Task>) {
    if tasks == [] then []
    else (if tasks[0].key == key then [] else [tasks[0]]) + Keep(tasks[1..], key)
  }

  /** The simple queue: push appends, cancel drops by key, and a receive takes the first task. */
  function SimpleNext(tasks: seq<Task>, a: Action, received: bool): seq<Task>
    requires received ==> tasks != []
  {
    match a
    case Push(task) => tasks + [task]
    case Remove(key) => Keep(tasks, key)
    case _ => if received then tasks[1..] else tasks
  }

  lemma {:induction false} LiveAppend(queue: seq<Option<Task>>, task: Task)
    ensures Live(queue + [Some(task)]) == Live(queue) + [task]
  {
    if queue == [] {
      assert ([Some(task)])[1..] == [];
    } else {
      LiveAppend(queue[1..], task);
      assert (queue + [Some(task)])[1..] == queue[1..] + [Some(task)];
    }
  }

  lemma {:induction false} LiveBlanked(queue: seq<Option<Task>>, key: Key)
    ensures Live(Blanked(queue, key)) == Keep(Live(queue), key)
  {
    if queue != [] {
      LiveBlanked(queue[1..], key);
      assert Blanked(queue, key)[1..] == Blanked(queue[1..], key);
      var b := Blanked(queue, key);
      assert Live(b) == (if b[0].Some? then [b[0].value] else []) + Live(b[1..]);
      if queue[0].Some? {
        assert Live(queue)[1..] == Live(queue[1..]);
      } else {
        assert Live(queue) == Live(queue[1..]);
      }
    }
  }

  lemma LivePop(queue: seq<Option<Task>>)
    requires queue != []
    ensures queue[0].None? ==> Live(queue[1..]) == Live(queue)
    ensures queue[0].Some? ==>
              Live(queue) != [] && Live(queue)[0] == queue[0].value && Live(queue)[1..] == Live(queue[1..])
  {
  }

  /** Every step of the channel is a step of the simple queue, and a task received is its first. */
  lemma RefinesSimpleQueue(s: State, a: Action)
    requires Inv(s) && Enabled(s, a)
    ensures var s' := Next(s, a);
            var received := a.Pop? && s.queue[0].Some?;
            && (received ==> Live(s.queue) != [] && Live(s.queue)[0] == s.queue[0].value)
            && Live(s'.queue) == SimpleNext(Live(s.queue), a, received)
            && (!s'.receiver.Crashed? ==>
                  (if received then s'.returned == s.returned + [s.popped] else s'.returned == s.returned))
  {
    match a
    case Push(task) => LiveAppend(s.queue, task);
    case Remove(key) => LiveBlanked(s.queue, key);
    case Pop => LivePop(s.queue);
    case _ =>
  }

  /**
   A receive goes out of bounds exactly when the task it took has a wait registered that is not
   the last one of the list.
   */
  lemma CrashesIff(s: State)
    requires Inv(s) && Enabled(s, Pop)
    ensures Next(s, Pop).receiver.Crashed? <==>
            && s.queue[0].Some?
            && exists i :: 0 <= i < |s.info.pending| - 1 && s.info.pending[i].key == s.queue[0].value.key
  {
  }

  /** Some interleaving of the steps leads to the state. */
  ghost predicate Reachable(s: State) {
    exists trace, actions :: IsRun(trace, actions) && trace[|trace| - 1] == s
  }

  lemma InitReached()
    ensures Reachable(INIT)
  {
    assert IsRun([INIT], []);
  }

  lemma StepReached(s: State, a: Action)
    requires Reachable(s) && Enabled(s, a)
    ensures Reachable(Next(s, a))
  {
    var trace, actions :| IsRun(trace, actions) && trace[|trace| - 1] == s;
    var longer, more := trace + [Next(s, a)], actions + [a];
    forall i | 0 <= i < |more|
      ensures Enabled(longer[i], more[i]) && longer[i + 1] == Next(longer[i], more[i])
    {
      assert i < |actions| ==> longer[i] == trace[i] && longer[i + 1] == trace[i + 1] && more[i] == actions[i];
    }
    assert IsRun(longer, more);
  }

  /** Two tasks with different keys were sent. */
  const TWO_SENT: State := INIT.(
    queue := [Some(Task(1, 0)), Some(Task(2, 0))], tokens := [true, true], log := [Task(1, 0), Task(2, 0)])

  /** And someone waits for each of them. */
  const BOTH_AWAITED: State := TWO_SENT.(info := TaskInfo(None, None, [Wait(1, 0), Wait(2, 1)]), nextCond := 2)

  lemma TwoSentReached()
    ensures Reachable(TWO_SENT)
  {
    InitReached();
    var one := INIT.(queue := [Some(Task(1, 0))], inFlight := 1, log := [Task(1, 0)]);
    StepReached(INIT, Push(Task(1, 0)));
    assert Next(INIT, Push(Task(1, 0))) == one;
    StepReached(one, Push(Task(2, 0)));
    var two := TWO_SENT.(inFlight := 2, tokens := []);
    assert Next(one, Push(Task(2, 0))) == two;
    StepReached(two, Notify);
    StepReached(Next(two, Notify), Notify);
    assert Next(Next(two, Notify), Notify) == TWO_SENT;
  }

  lemma BothAwaitedReached()
    ensures Reachable(BOTH_AWAITED)
  {
    TwoSentReached();
    assert Matches(TWO_SENT.queue[0], 1) && Matches(TWO_SENT.queue[1], 2);
    var one := TWO_SENT.(info := TaskInfo(None, None, [Wait(1, 0)]), nextCond := 1);
    StepReached(TWO_SENT, WaitFor(1));
    assert Next(TWO_SENT, WaitFor(1)) == one;
    StepReached(one, WaitFor(2));
    assert FirstWait([Wait(1, 0)], 2) == 1;
    assert Next(one, WaitFor(2)) == BOTH_AWAITED;
  }

  /** Receiving the first of two tasks that both have a wait goes out of bounds. */
  lemma CrashReached() returns (s: State)
    ensures Reachable(s) && s.receiver.Crashed?
  {
    BothAwaitedReached();
    StepReached(BOTH_AWAITED, StartRecv(true));
    var head := BOTH_AWAITED.(receiver := AtHead(true));
    StepReached(head, TryToken);
    var taken := BOTH_AWAITED.(receiver := HasToken(true), tokens := [true]);
    assert Next(head, TryToken) == taken;
    StepReached(taken, Pop);
    s := Next(taken, Pop);
    assert !ScanInBounds(taken.info.pending, 1);
  }
}
