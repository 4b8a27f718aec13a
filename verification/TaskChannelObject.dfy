/** The task channel as the object it is: fields updated in place, each atomic section a method. */
module TaskChannelObject {
  import opened TaskChannel
  import opened TaskChannelSafety
  import opened Wrappers

  datatype TryRecvResult = Received(task: Task) | Stopped | Empty | OutOfBounds

  lemma {:induction false} WithoutAppend(pending: seq<Wait>, w: Wait, key: Key)
    ensures Without(pending + [w], key) == Without(pending, key) + (if w.key == key then [] else [w])
  {
    if pending != [] {
      WithoutAppend(pending[1..], w, key);
      assert (pending + [w])[1..] == pending[1..] + [w];
    }
  }

  lemma CondsOfAppend(pending: seq<Wait>, w: Wait, key: Key)
    ensures CondsOf(pending + [w], key) == CondsOf(pending, key) + (if w.key == key then {w.cond} else {})
  {
  }

  /** How many cancelled tasks the queue starts with. */
  function Blanks(queue: seq<Option<Task>>): (b: nat)
    ensures b <= |queue| && (b < |queue| ==> queue[b].Some?)
  {
    if queue == [] || queue[0].Some? then 0 else 1 + Blanks(queue[1..])
  }

  /** How many tokens for tasks come before the end of the tokens or a token to stop. */
  function TaskTokens(tokens: seq<bool>): (t: nat)
    ensures t <= |tokens| && (t < |tokens| ==> !tokens[t])
  {
    if tokens == [] || !tokens[0] then 0 else 1 + TaskTokens(tokens[1..])
  }

  /**
   What `try_recv` returns: each cancelled task uses up a token, so it finds the first task that is
   not cancelled exactly when there are more tokens for tasks than cancelled tasks before it.
   */
  function Outcome(queue: seq<Option<Task>>, tokens: seq<bool>, pending: seq<Wait>): TryRecvResult {
    var b, t := Blanks(queue), TaskTokens(tokens);
    if t <= b || b == |queue| then if t == |tokens| then Empty else Stopped
    else if ScanInBounds(pending, queue[b].value.key) then Received(queue[b].value)
    else OutOfBounds
  }

  /** The state after one turn of the loop of `recv_impl` for `try_recv`. */
  function TurnState(s: State): State
    requires s.receiver.AtHead?
  {
    var s1 := TryTokenStep(s);
    if s1.receiver.HasToken? then PopStep(s1) else s1
  }

  /** What the turn returns; no result means another turn. */
  function TurnResult(s: State): Option<TryRecvResult> {
    if s.tokens == [] then Some(Empty)
    else if !s.tokens[0] then Some(Stopped)
    else if s.queue == [] || s.queue[0].None? then None
    else if ScanInBounds(s.info.pending, s.queue[0].value.key) then Some(Received(s.queue[0].value))
    else Some(OutOfBounds)
  }

  /** A turn without a result drops a cancelled task and leaves the outcome as it was. */
  lemma TurnGoesOn(s: State)
    requires Inv(s) && s.receiver == AtHead(true) && TurnResult(s).None?
    ensures var s1 := TurnState(s);
            && Inv(s1) && s1.receiver == AtHead(true) && |s1.tokens| < |s.tokens|
            && Live(s1.queue) == Live(s.queue) && s1.info == s.info
            && Outcome(s1.queue, s1.tokens, s1.info.pending) == Outcome(s.queue, s.tokens, s.info.pending)
  {
    StepKeeps(s, TryToken);
    StepKeeps(Next(s, TryToken), Pop);
  }

  /** A turn with a result has the outcome, and returns the first task that is not cancelled or none. */
  lemma TurnEnds(s: State)
    requires Inv(s) && s.receiver == AtHead(true) && TurnResult(s).Some?
    ensures TurnResult(s).value == Outcome(s.queue, s.tokens, s.info.pending)
    ensures var s1, result := TurnState(s), TurnResult(s).value;
            && (!result.OutOfBounds? ==> Inv(s1) && s1.receiver == Idle)
            && (result.Received? ==>
                  Live(s.queue) == [result.task] + Live(s1.queue) && s1.info.current == Some(result.task.key))
            && (result.Stopped? || result.Empty? ==> Live(s1.queue) == Live(s.queue) && s1.info == s.info)
  {
    StepKeeps(s, TryToken);
    if s.tokens != [] && s.tokens[0] {
      StepKeeps(Next(s, TryToken), Pop);
    }
  }

  class CancellableTaskChannel {
    var queue: seq<Option<Task>>
    var tokens: seq<bool>
    var current: Option<Key>
    var currentWaits: Option<CondVar>
    var pending: seq<Wait>
    var nextCond: nat
    ghost var inFlight: nat
    ghost var receiver: Receiver
    ghost var notified: set<CondVar>
    ghost var log: seq<Task>
    ghost var popped: nat
    ghost var cancelled: set<nat>
    ghost var returned: seq<nat>

    ghost function Info(): TaskInfo
      reads this`current, this`currentWaits, this`pending
    {
      TaskInfo(current, currentWaits, pending)
    }

    ghost function View(): State
      reads this
    {
      State(queue, tokens, inFlight, Info(), receiver, nextCond, notified, log,
            popped, cancelled, returned)
    }

    constructor ()
      ensures View() == INIT
    {
      queue, tokens, current, currentWaits, pending, nextCond := [], [], None, None, [], 0;
      inFlight, receiver, notified, log, popped, cancelled, returned := 0, Idle, {}, [], 0, {}, [];
    }

    /** The first half of `send`. */
    method Push(task: Task)
      requires Enabled(View(), Action.Push(task))
      modifies this
      ensures View() == Next(old(View()), Action.Push(task))
    {
      queue := queue + [Some(task)];
      inFlight, log := inFlight + 1, log + [task];
    }

    /** The second half of `send`. */
    method Notify()
      requires Enabled(View(), Action.Notify)
      modifies this
      ensures View() == Next(old(View()), Action.Notify)
    {
      tokens := tokens + [true];
      inFlight := inFlight - 1;
    }

    /** `remove_pending`: blanks the matching tasks and, when asked, wakes their waiters. */
    method RemovePending(key: Key, notifyWaits: bool) returns (found: bool)
      modifies this`queue, this`pending, this`notified
      ensures queue == Blanked(old(queue), key)
      ensures found == HasLive(old(queue), key)
      ensures pending == if notifyWaits && found then Without(old(pending), key) else old(pending)
      ensures notified == if notifyWaits && found then old(notified) + CondsOf(old(pending), key) else old(notified)
    {
      found := false;
      for i := 0 to |queue|
        invariant |queue| == |old(queue)| && pending == old(pending) && notified == old(notified)
        invariant forall j | 0 <= j < |queue| ::
                    queue[j] == if j < i && Matches(old(queue)[j], key) then None else old(queue)[j]
        invariant found <==> exists j :: 0 <= j < i && Matches(old(queue)[j], key)
      {
        if queue[i].Some? && queue[i].value.key == key {
          found := true;
          queue := queue[i := None];
        }
      }
      if notifyWaits && found {
        NotifyPendingTaskWaits(key);
      }
    }

    /** `notify_pending_task_waits`: the `retain` over the pending waits. */
    method NotifyPendingTaskWaits(key: Key)
      modifies this`pending, this`notified
      ensures pending == Without(old(pending), key)
      ensures notified == old(notified) + CondsOf(old(pending), key)
    {
      var kept: seq<Wait> := [];
      for i := 0 to |pending|
        invariant pending == old(pending)
        invariant kept == Without(pending[..i], key)
        invariant notified == old(notified) + CondsOf(pending[..i], key)
      {
        assert pending[..i + 1] == pending[..i] + [pending[i]];
        WithoutAppend(pending[..i], pending[i], key);
        CondsOfAppend(pending[..i], pending[i], key);
        if pending[i].key == key {
          notified := notified + {pending[i].cond};
        } else {
          kept := kept + [pending[i]];
        }
      }
      assert pending[..|pending|] == pending;
      pending := kept;
    }

    /** `remove`: returns whether the key was that of the current task. */
    method Remove(key: Key) returns (isCurrent: bool)
      requires Enabled(View(), Action.Remove(key))
      modifies this
      ensures View() == Next(old(View()), Action.Remove(key))
      ensures isCurrent == (old(current) == Some(key))
    {
      ghost var before := View();
      isCurrent := current == Some(key);
      if isCurrent {
        var _ := RemovePending(key, false);
        current := None;
      } else {
        var _ := RemovePending(key, true);
      }
      cancelled := cancelled + QueuedWith(before, key);
    }

    /** `wait_for`: the condition variable to wait on, or none when the key is unknown. */
    method WaitFor(key: Key) returns (cond: Option<CondVar>)
      requires Enabled(View(), Action.WaitFor(key))
      modifies this
      ensures View() == Next(old(View()), Action.WaitFor(key))
      ensures cond == WaitForResult(old(View()), key)
    {
      if current == Some(key) {
        if currentWaits.None? {
          currentWaits := Some(nextCond);
          nextCond := nextCond + 1;
        }
        return currentWaits;
      }
      var wait := ClonePendingTaskWait(key);
      if wait.Some? {
        return wait;
      }
      for i := 0 to |queue|
        invariant View() == old(View())
        invariant forall j | 0 <= j < i :: !Matches(queue[j], key)
      {
        if queue[i].Some? && queue[i].value.key == key {
          assert Matches(queue[i], key);
          pending := pending + [Wait(key, nextCond)];
          nextCond := nextCond + 1;
          return Some(nextCond - 1);
        }
      }
      cond := None;
    }

    /** `clone_pending_task_wait`: the first wait registered for the key. */
    method ClonePendingTaskWait(key: Key) returns (wait: Option<CondVar>)
      ensures wait == var i := FirstWait(pending, key); if i < |pending| then Some(pending[i].cond) else None
    {
      for i := 0 to |pending|
        invariant forall j | 0 <= j < i :: pending[j].key != key
      {
        if pending[i].key == key {
          assert FirstWait(pending, key) == i;
          return Some(pending[i].cond);
        }
      }
      wait := None;
    }

    /** `set_current_task(Some(key))`; `ok` is false when the scan runs out of bounds. */
    method SetCurrentTask(key: Key) returns (ok: bool)
      modifies this`current, this`currentWaits, this`pending, this`notified
      ensures ok == ScanInBounds(old(pending), key)
      ensures ok ==> Info() == WithCurrent(old(Info()), key)
      ensures notified == old(notified) + CurrentCond(old(Info()))
    {
      if currentWaits.Some? {
        notified := notified + {currentWaits.value};
        currentWaits := None;
      }
      var i, n := 0, |pending|;
      while i < n
        invariant 0 <= i <= n == |old(pending)|
        invariant notified == old(notified) + CurrentCond(old(Info()))
        invariant var first := FirstWait(old(pending), key);
                  if i <= first then pending == old(pending) && currentWaits == None
                  else if first + 1 == n then
                    pending == old(pending)[..first] && currentWaits == Some(old(pending)[first].cond)
                  else |pending| < n && i < n
      {
        if i >= |pending| {
          return false;
        }
        if pending[i].key == key {
          assert i <= FirstWait(old(pending), key) ==> i == FirstWait(old(pending), key);
          currentWaits := Some(pending[i].cond);
          pending := pending[i := pending[|pending| - 1]][..|pending| - 1];
        }
        i := i + 1;
      }
      ok := true;
      current := Some(key);
    }

    /**
     The `try_recv` on the token channel at the head of the loop, and what follows when it finds no
     token: the end of `try_recv`, or the point where `recv` blocks.
     */
    method TryToken(tryRecv: bool) returns (token: Option<bool>)
      requires receiver == AtHead(tryRecv)
      modifies this
      ensures View() == TryTokenStep(old(View()))
      ensures token == if old(tokens) == [] then None else Some(old(tokens)[0])
    {
      if tokens == [] {
        if tryRecv {
          receiver := Idle;
        } else if queue == [] {
          // Nothing is current while the receiver waits without the locks.
          notified := notified + CurrentCond(Info());
          current, currentWaits := None, None;
          receiver := BlockedUnlocked;
        } else {
          receiver := BlockedLocked;
        }
        return None;
      }
      token := Some(tokens[0]);
      receiver := if tokens[0] then HasToken(tryRecv) else Idle;
      tokens := tokens[1..];
    }

    /** `recv_task_from_receiver`, once a token is there. */
    method TakeToken() returns (token: bool)
      requires Enabled(View(), Action.TakeToken)
      modifies this`tokens, this`receiver
      ensures View() == Next(old(View()), Action.TakeToken)
      ensures token == old(tokens)[0]
    {
      token := tokens[0];
      tokens := tokens[1..];
      receiver := if !token then Idle else if receiver.BlockedLocked? then HasToken(false) else TokenUnlocked;
    }

    /** Popping a task that is not cancelled makes it the current one. */
    method Deliver(task: Task) returns (ok: bool)
      requires receiver.HasToken? && queue != [] && queue[0] == Some(task)
      modifies this
      ensures ok == ScanInBounds(old(pending), task.key)
      ensures ok ==> View() == PopStep(old(View()))
    {
      ok := SetCurrentTask(task.key);
      queue := queue[1..];
      receiver := if ok then Idle else Crashed;
      returned := returned + [popped];
      popped := popped + 1;
    }

    /** The queue pop and what follows it in the loop. */
    method Pop(tryRecv: bool) returns (front: Option<Option<Task>>, ok: bool)
      requires receiver == HasToken(tryRecv)
      modifies this
      ensures front == if old(queue) == [] then None else Some(old(queue)[0])
      ensures ok == !PopStep(old(View())).receiver.Crashed?
      ensures ok ==> View() == PopStep(old(View()))
    {
      if queue == [] {
        receiver := Spinning;
        return None, true;
      }
      front, ok := Some(queue[0]), true;
      if queue[0].Some? {
        ok := Deliver(queue[0].value);
      } else {
        queue := queue[1..];
        receiver := AtHead(tryRecv);
        popped := popped + 1;
      }
    }

    /** One turn of the loop of `recv_impl`. */
    method Turn() returns (result: Option<TryRecvResult>)
      requires receiver == AtHead(true)
      modifies this
      ensures result == TurnResult(old(View()))
      ensures result != Some(OutOfBounds) ==> View() == TurnState(old(View()))
    {
      var token := TryToken(true);
      if token.None? {
        return Some(Empty);
      }
      if !token.value {
        return Some(Stopped);
      }
      var front, ok := Pop(true);
      if !ok {
        return Some(OutOfBounds);
      }
      result := if front.Some? && front.value.Some? then Some(Received(front.value.value)) else None;
    }

    /**
     `try_recv` with no interference. It returns the first task that is not cancelled and takes it
     out, or takes nothing but cancelled tasks out; `Outcome` says which.
     */
    method TryRecv() returns (result: TryRecvResult)
      requires Inv(View()) && receiver == Idle
      modifies this
      ensures result == Outcome(old(queue), old(tokens), old(pending))
      ensures !result.OutOfBounds? ==> Inv(View()) && receiver == Idle
      ensures result.Received? ==>
                Live(old(queue)) == [result.task] + Live(queue) && current == Some(result.task.key)
      ensures result.Stopped? || result.Empty? ==> Live(queue) == Live(old(queue)) && Info() == old(Info())
    {
      StepKeeps(View(), StartRecv(true));
      receiver := AtHead(true);
      while true
        invariant Inv(View()) && receiver == AtHead(true)
        invariant Live(queue) == Live(old(queue)) && Info() == old(Info())
        invariant Outcome(queue, tokens, pending) == Outcome(old(queue), old(tokens), old(pending))
        decreases |tokens|
      {
        if TurnResult(View()).None? {
          TurnGoesOn(View());
        } else {
          TurnEnds(View());
        }
        var turn := Turn();
        if turn.Some? {
          return turn.value;
        }
      }
    }
  }
}
