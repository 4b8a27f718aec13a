/**
 The cancellable task channel as a state machine. A step is a section of code that runs without
 interference: one holding the task-info lock and the queue lock, one operation on the token
 channel, or the release or acquisition of both locks by the receiver.
 */
module TaskChannel {

  import opened Wrappers

  type Key = nat
  type CondVar = nat

  /** `payload` stands for everything in a task but its key. */
  datatype Task = Task(key: Key, payload: nat)

  datatype Wait = Wait(key: Key, cond: CondVar)

  /** `TaskInfo`: what is guarded by the task-info lock. */
  datatype TaskInfo = TaskInfo(current: Option<Key>, currentWaits: Option<CondVar>, pending: seq<Wait>)

  /**
   Where the one receiver is in `recv_impl`.
   - `AtHead`: at the head of the loop, holding both locks
   - `BlockedLocked` and `BlockedUnlocked`: waiting for a token with and without the locks
   - `TokenUnlocked`: got a token, about to take the locks again
   - `HasToken`: got a token, holding both locks, about to pop the queue
   - `Spinning`: in the retry branch for an empty queue
   - `Crashed`: out of bounds in the scan of pending waits
   */
  datatype Receiver =
    | Idle
    | AtHead(tryRecv: bool)
    | BlockedLocked
    | BlockedUnlocked
    | TokenUnlocked
    | HasToken(tryRecv: bool)
    | Spinning
    | Crashed

  /**
   The shared state and its history.
   - `inFlight`: sends that have pushed their task and not yet sent their token
   - `log`: every task ever pushed; `popped` of them have left the queue
   - `cancelled`, `returned`: positions in `log`
   - `nextCond`: condition variables below it exist; `notified`: those notified so far
   */
  datatype State = State(
    queue: seq<Option<Task>>,
    tokens: seq<bool>,
    inFlight: nat,
    info: TaskInfo,
    receiver: Receiver,
    nextCond: nat,
    notified: set<CondVar>,
    log: seq<Task>,
    popped: nat,
    cancelled: set<nat>,
    returned: seq<nat>)

  const INIT: State := State([], [], 0, TaskInfo(None, None, []), Idle, 0, {}, [], 0, {}, [])

  // ---------------------------------------------------------------------------------------
  // Operations under the locks
  // ---------------------------------------------------------------------------------------

  predicate Matches(slot: Option<Task>, key: Key) {
    slot.Some? && slot.value.key == key
  }

  predicate HasLive(queue: seq<Option<Task>>, key: Key) {
    exists i :: 0 <= i < |queue| && Matches(queue[i], key)
  }

  /** The queue with every task of `key` blanked. */
  function Blanked(queue: seq<Option<Task>>, key: Key): (q: seq<Option<Task>>)
    ensures |q| == |queue|
    ensures forall i | 0 <= i < |q| :: q[i] == if Matches(queue[i], key) then None else queue[i]
  {
    seq(|queue|, i requires 0 <= i < |queue| => if Matches(queue[i], key) then None else queue[i])
  }

  /** The waits left when those for `key` are dropped. */
  function Without(pending: seq<Wait>, key: Key): (left: seq<Wait>)
    ensures forall w :: w in left <==> w in pending && w.key != key
  {
    if pending == [] then []
    else
      var rest := Without(pending[1..], key);
      if pending[0].key == key then rest else [pending[0]] + rest
  }

  /** The position of the first wait for `key`, or the length when there is none. */
  function FirstWait(pending: seq<Wait>, key: Key): (i: nat)
    ensures i <= |pending|
    ensures forall j | 0 <= j < i :: pending[j].key != key
    ensures i < |pending| ==> pending[i].key == key
  {
    if pending == [] then 0
    else if pending[0].key == key then 0
    else 1 + FirstWait(pending[1..], key)
  }

  /** The condition variable of the current task, as a set. */
  function CurrentCond(info: TaskInfo): set<CondVar> {
    if info.currentWaits.Some? then {info.currentWaits.value} else {}
  }

  /** The condition variables waiting for `key`. */
  function CondsOf(pending: seq<Wait>, key: Key): set<CondVar> {
    set w | w in pending && w.key == key :: w.cond
  }

  function PendingConds(pending: seq<Wait>): set<CondVar> {
    set w | w in pending :: w.cond
  }

  /**
   The scan of `set_current_task` stays in bounds exactly when the first wait for the key is the
   last wait of all or there is none: its range is fixed before an entry is removed.
   */
  predicate ScanInBounds(pending: seq<Wait>, key: Key) {
    FirstWait(pending, key) + 1 >= |pending|
  }

  /** `set_current_task(Some(key))` when its scan stays in bounds. */
  function WithCurrent(info: TaskInfo, key: Key): TaskInfo
    requires ScanInBounds(info.pending, key)
  {
    var i := FirstWait(info.pending, key);
    if i < |info.pending| then TaskInfo(Some(key), Some(info.pending[i].cond), info.pending[..i])
    else TaskInfo(Some(key), None, info.pending)
  }

  // ---------------------------------------------------------------------------------------
  // Steps
  // ---------------------------------------------------------------------------------------

  datatype Action =
    | Push(task: Task)
    | Notify
    | Stop
    | Remove(key: Key)
    | WaitFor(key: Key)
    | StartRecv(tryRecv: bool)
    | TryToken
    | TakeToken
    | Relock
    | Pop

  /** The receiver holds both locks. */
  predicate Locked(s: State) {
    s.receiver.AtHead? || s.receiver.BlockedLocked? || s.receiver.HasToken? || s.receiver.Spinning?
  }

  predicate Enabled(s: State, a: Action) {
    !s.receiver.Crashed? &&
    match a
    case Push(_) => !Locked(s)
    case Notify => s.inFlight > 0
    case Stop => true
    case Remove(_) => !Locked(s)
    case WaitFor(_) => !Locked(s)
    case StartRecv(_) => s.receiver.Idle?
    case TryToken => s.receiver.AtHead?
    case TakeToken => (s.receiver.BlockedLocked? || s.receiver.BlockedUnlocked?) && s.tokens != []
    case Relock => s.receiver.TokenUnlocked?
    case Pop => s.receiver.HasToken?
  }

  /** Positions of the log whose tasks sit in the queue and have `key`. */
  function QueuedWith(s: State, key: Key): set<nat> {
    set i: nat | i < |s.queue| && Matches(s.queue[i], key) :: s.popped + i
  }

  function RemoveStep(s: State, key: Key): State {
    var queue := Blanked(s.queue, key);
    var cancelled := s.cancelled + QueuedWith(s, key);
    if s.info.current == Some(key) then
      s.(queue := queue, cancelled := cancelled, info := s.info.(current := None))
    else if HasLive(s.queue, key) then
      s.(queue := queue, cancelled := cancelled, notified := s.notified + CondsOf(s.info.pending, key),
         info := s.info.(pending := Without(s.info.pending, key)))
    else
      s.(queue := queue, cancelled := cancelled)
  }

  /** The condition variable `wait_for` hands out, if any. */
  function WaitForResult(s: State, key: Key): Option<CondVar> {
    var i := FirstWait(s.info.pending, key);
    if s.info.current == Some(key) then
      if s.info.currentWaits.Some? then s.info.currentWaits else Some(s.nextCond)
    else if i < |s.info.pending| then Some(s.info.pending[i].cond)
    else if HasLive(s.queue, key) then Some(s.nextCond)
    else None
  }

  function WaitForStep(s: State, key: Key): State {
    if s.info.current == Some(key) then
      if s.info.currentWaits.Some? then s
      else s.(info := s.info.(currentWaits := Some(s.nextCond)), nextCond := s.nextCond + 1)
    else if FirstWait(s.info.pending, key) < |s.info.pending| then s
    else if HasLive(s.queue, key) then
      s.(info := s.info.(pending := s.info.pending + [Wait(key, s.nextCond)]), nextCond := s.nextCond + 1)
    else s
  }

  function TryTokenStep(s: State): State
    requires s.receiver.AtHead?
  {
    if s.tokens != [] then
      s.(tokens := s.tokens[1..], receiver := if s.tokens[0] then HasToken(s.receiver.tryRecv) else Idle)
    else if s.receiver.tryRecv then
      s.(receiver := Idle)
    else if s.queue == [] then
      s.(receiver := BlockedUnlocked, notified := s.notified + CurrentCond(s.info),
         info := TaskInfo(None, None, s.info.pending))
    else
      s.(receiver := BlockedLocked)
  }

  function PopStep(s: State): State
    requires s.receiver.HasToken?
  {
    if s.queue == [] then
      s.(receiver := Spinning)
    else
      var rest := s.(queue := s.queue[1..], popped := s.popped + 1);
      match s.queue[0]
      case None => rest.(receiver := AtHead(s.receiver.tryRecv))
      case Some(task) =>
        if ScanInBounds(s.info.pending, task.key) then
          rest.(receiver := Idle, info := WithCurrent(s.info, task.key),
                notified := s.notified + CurrentCond(s.info), returned := s.returned + [s.popped])
        else
          rest.(receiver := Crashed)
  }

  function Next(s: State, a: Action): State
    requires Enabled(s, a)
  {
    match a
    case Push(task) =>
      s.(queue := s.queue + [Some(task)], inFlight := s.inFlight + 1, log := s.log + [task])
    case Notify => s.(tokens := s.tokens + [true], inFlight := s.inFlight - 1)
    case Stop => s.(tokens := s.tokens + [false])
    case Remove(key) => RemoveStep(s, key)
    case WaitFor(key) => WaitForStep(s, key)
    case StartRecv(tryRecv) => s.(receiver := AtHead(tryRecv))
    case TryToken => TryTokenStep(s)
    case TakeToken =>
      s.(tokens := s.tokens[1..],
         receiver := if !s.tokens[0] then Idle
                     else if s.receiver.BlockedLocked? then HasToken(false) else TokenUnlocked)
    case Relock => s.(receiver := HasToken(false))
    case Pop => PopStep(s)
  }
}
