/**
 The send scheduler as a state machine (src/app/transfer_scheduler.cpp). Every section under the mutex is one step;
 between steps runner threads finish whenever they like. History is kept beside the program's own state.
 */
module SchedulerState {
  import opened Base

  datatype Limits = Limits(maxGlobal: int, maxPeer: int)

  datatype Peer = Peer(id: Text, online: bool, linked: bool)

  datatype QueuedSend = QueuedSend(id: nat, peer: Text, path: Text)

  datatype RunningSend = RunningSend(task: QueuedSend, completed: bool)

  /** Why a task is no longer the scheduler's. */
  datatype Reason = Cancelled | FailedToStart | Reaped | Stopped

  /** One attempt to start a task: how many sends were running then, in all and for its peer, and the limits then. */
  datatype Attempt = Attempt(id: nat, started: bool, global: nat, forPeer: nat, limits: Limits)

  /**
   Program state: limits to nextId. Threads: `live` have been started and have not reported yet, `reported` have.
   History: where every task went, and every attempt to start one, in order.
   */
  datatype State = State(
    limits: Limits,
    peers: map<Text, Peer>,
    queue: seq<QueuedSend>,
    paused: map<nat, QueuedSend>,
    running: map<nat, RunningSend>,
    nextId: nat,
    live: set<nat>,
    reported: set<nat>,
    retired: map<nat, Reason>,
    attempts: seq<Attempt>)

  /** Which tasks can be started at this moment: a readable source and a runner from the factory. */
  type CanStart = QueuedSend -> bool

  const INITIAL: State := State(Limits(1, 1), map[], [], map[], map[], 1, {}, {}, map[], [])

  function Clamp(x: int, lo: int, hi: int): int {
    if x < lo then lo else if x > hi then hi else x
  }

  // ----- Counting and choosing -----

  function RunningIds(running: map<nat, RunningSend>, peer: Text): set<nat> {
    set id | id in running && running[id].task.peer == peer
  }

  function RunningFor(running: map<nat, RunningSend>, peer: Text): nat {
    |RunningIds(running, peer)|
  }

  predicate PeerReady(peers: map<Text, Peer>, peer: Text) {
    peer in peers && peers[peer].linked && peers[peer].online
  }

  predicate Startable(s: State, task: QueuedSend) {
    PeerReady(s.peers, task.peer) && RunningFor(s.running, task.peer) < s.limits.maxPeer
  }

  /** The first startable position at or after k, or the length of the queue. */
  function FirstStartable(s: State, k: nat): (r: nat)
    requires k <= |s.queue|
    ensures k <= r <= |s.queue|
    ensures r < |s.queue| ==> Startable(s, s.queue[r])
    ensures forall i :: k <= i < r ==> !Startable(s, s.queue[i])
    decreases |s.queue| - k
  {
    if k == |s.queue| || Startable(s, s.queue[k]) then k else FirstStartable(s, k + 1)
  }

  function Without<T>(q: seq<T>, k: nat): seq<T>
    requires k < |q|
  {
    q[..k] + q[k + 1..]
  }

  // ----- Starting -----

  /** A task is started for a machine that is still linked, if it can be. */
  predicate CanBegin(s: State, task: QueuedSend, can: CanStart) {
    task.peer in s.peers && s.peers[task.peer].linked && can(task)
  }

  function AttemptOf(s: State, task: QueuedSend, can: CanStart): Attempt {
    Attempt(task.id, CanBegin(s, task, can), |s.running|, RunningFor(s.running, task.peer), s.limits)
  }

  /** Starts a task that has left the queue, or retires it when it cannot be started. */
  function TryStart(s: State, task: QueuedSend, can: CanStart): State {
    var tried := s.(attempts := s.attempts + [AttemptOf(s, task, can)]);
    if CanBegin(s, task, can) then
      tried.(running := s.running[task.id := RunningSend(task, false)], live := s.live + {task.id})
    else tried.(retired := s.retired[task.id := FailedToStart])
  }

  function StartOne(s: State, k: nat, can: CanStart): State
    requires k < |s.queue|
  {
    TryStart(s.(queue := Without(s.queue, k)), s.queue[k], can)
  }

  function StartNext(s: State, can: CanStart): State
    decreases |s.queue|
  {
    if s.queue == [] || |s.running| >= s.limits.maxGlobal then s else
      var k := FirstStartable(s, 0);
      if k == |s.queue| then s else StartNext(StartOne(s, k, can), can)
  }

  // ----- The other locked sections -----

  function AddToQueue(s: State, peer: Text, path: Text): State {
    s.(queue := s.queue + [QueuedSend(s.nextId, peer, path)], nextId := s.nextId + 1)
  }

  /** One task per distinct non-empty peer, in the given order. */
  function AddForPeers(s: State, peers: seq<Text>, seen: set<Text>, path: Text): State
    decreases |peers|
  {
    if peers == [] then s
    else if peers[0] == [] || peers[0] in seen then AddForPeers(s, peers[1..], seen, path)
    else AddForPeers(AddToQueue(s, peers[0], path), peers[1..], seen + {peers[0]}, path)
  }

  /** The position of a task in the queue, or the length of the queue. */
  function IndexOf(q: seq<QueuedSend>, id: nat): (k: nat)
    ensures k <= |q| && (k < |q| ==> q[k].id == id)
    ensures forall i :: 0 <= i < k ==> q[i].id != id
  {
    if q == [] || q[0].id == id then 0 else 1 + IndexOf(q[1..], id)
  }

  predicate Queued(q: seq<QueuedSend>, id: nat) {
    IndexOf(q, id) < |q|
  }

  /** What is left of a queue without the tasks of a set. */
  function Dropping(q: seq<QueuedSend>, ids: set<nat>): seq<QueuedSend> {
    if q == [] then [] else
      var front := Dropping(q[..|q| - 1], ids);
      if q[|q| - 1].id in ids then front else front + [q[|q| - 1]]
  }

  function IdsIn(q: seq<QueuedSend>): set<nat> {
    set i | 0 <= i < |q| :: q[i].id
  }

  function PeerIdsIn(q: seq<QueuedSend>, peer: Text): set<nat> {
    set i | 0 <= i < |q| && q[i].peer == peer :: q[i].id
  }

  function PausedFor(paused: map<nat, QueuedSend>, peer: Text): set<nat> {
    set id | id in paused && paused[id].peer == peer
  }

  function Retiring(retired: map<nat, Reason>, ids: set<nat>, reason: Reason): map<nat, Reason> {
    retired + map id | id in ids :: reason
  }

  function WithdrawQueued(s: State, ids: set<nat>): State {
    s.(queue := Dropping(s.queue, ids), retired := Retiring(s.retired, ids, Reason.Cancelled))
  }

  function WithdrawPaused(s: State, ids: set<nat>): State {
    s.(paused := s.paused - ids, retired := Retiring(s.retired, ids, Reason.Cancelled))
  }

  function Withdraw(s: State, queued: set<nat>, paused: set<nat>): State {
    WithdrawPaused(WithdrawQueued(s, queued), paused)
  }

  function CompletedIds(running: map<nat, RunningSend>): set<nat> {
    set id | id in running && running[id].completed
  }

  /** Joins and forgets the sends whose threads have reported. */
  function Reap(s: State): State {
    var done := CompletedIds(s.running);
    s.(running := s.running - done, retired := Retiring(s.retired, done, Reaped))
  }

  /** Sends a waiting task to another machine. */
  function Readdress(s: State, id: nat, peer: Text): State {
    var k := IndexOf(s.queue, id);
    if peer == [] then s
    else if k < |s.queue| then s.(queue := s.queue[k := s.queue[k].(peer := peer)])
    else if id in s.paused then s.(paused := s.paused[id := s.paused[id].(peer := peer)])
    else s
  }

  function Pause(s: State, id: nat): State {
    var k := IndexOf(s.queue, id);
    if k == |s.queue| then s else s.(queue := Without(s.queue, k), paused := s.paused[id := s.queue[k]])
  }

  function Resume(s: State, id: nat): State {
    if id !in s.paused then s else s.(paused := s.paused - {id}, queue := s.queue + [s.paused[id]])
  }

  function OneIf(id: nat, b: bool): set<nat> {
    if b then {id} else {}
  }

  /** Cancelling a running send only asks its runner to stop. */
  function CancelOne(s: State, id: nat): State {
    Reap(Withdraw(s, OneIf(id, Queued(s.queue, id)), OneIf(id, id in s.paused)))
  }

  function CancelFor(s: State, peer: Text): State {
    Reap(Withdraw(s, PeerIdsIn(s.queue, peer), PausedFor(s.paused, peer)))
  }

  function StopAll(s: State): State {
    var stopped := IdsIn(s.queue) + s.paused.Keys + s.running.Keys;
    s.(queue := [], paused := map[], running := map[], retired := Retiring(s.retired, stopped, Stopped))
  }

  /** A runner thread reports; the entry is gone if everything has been stopped meanwhile. */
  function MarkCompleted(s: State, id: nat): State {
    s.(running := if id in s.running then s.running[id := s.running[id].(completed := true)] else s.running,
       live := s.live - {id}, reported := s.reported + {id})
  }

  // ----- Runs -----

  /** What can happen under the mutex. Removing a machine is CancelledPeer and then PeerErased. */
  datatype Event =
    | LimitsSet(global: int, perPeer: int)
    | PeerUpserted(peer: Peer)
    | PeerErased(peerId: Text)
    | Enqueued(to: Text, path: Text)
    | EnqueuedMany(tos: seq<Text>, path: Text)
    | Moved(id: nat, to: Text)
    | PausedTask(id: nat)
    | ResumedTask(id: nat)
    | CancelledTask(id: nat)
    | CancelledPeer(peerId: Text)
    | StoppedAll
    | Pumped
    | RunnerReported(id: nat)

  /** One step: an event, and which tasks could be started at that moment. */
  datatype Input = Input(event: Event, can: CanStart)

  /** What an event changes before anything is started. Only a live thread can report. */
  function Changed(s: State, event: Event): State {
    match event
    case LimitsSet(global, perPeer) => s.(limits := Limits(Clamp(global, 1, 8), Clamp(perPeer, 1, 4)))
    case PeerUpserted(peer) => s.(peers := s.peers[peer.id := peer])
    case PeerErased(peer) => s.(peers := s.peers - {peer})
    case Enqueued(peer, path) => AddToQueue(s, peer, path)
    case EnqueuedMany(peers, path) => AddForPeers(s, peers, {}, path)
    case Moved(id, peer) => Readdress(s, id, peer)
    case PausedTask(id) => Pause(s, id)
    case ResumedTask(id) => Resume(s, id)
    case CancelledTask(id) => CancelOne(s, id)
    case CancelledPeer(peer) => CancelFor(s, peer)
    case StoppedAll => StopAll(s)
    case Pumped => Reap(s)
    case RunnerReported(id) => if id in s.live then MarkCompleted(s, id) else s
  }

  /** Whether an event goes on to start what it can: not when it has opened no room and queued nothing. */
  predicate Starts(s: State, event: Event) {
    match event
    case PeerErased(_) => false
    case Moved(id, peer) => peer != [] && (Queued(s.queue, id) || id in s.paused)
    case PausedTask(id) => Queued(s.queue, id)
    case ResumedTask(id) => id in s.paused
    case StoppedAll => false
    case RunnerReported(_) => false
    case _ => true
  }

  function Step(s: State, input: Input): State {
    var t := Changed(s, input.event);
    if Starts(s, input.event) then StartNext(t, input.can) else t
  }

  function Run(s: State, inputs: seq<Input>): State
    decreases |inputs|
  {
    if inputs == [] then s else Run(Step(s, inputs[0]), inputs[1..])
  }
}
