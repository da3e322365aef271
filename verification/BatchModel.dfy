/**
 The batch service protocol: clients with semaphore permits, the channel, the worker with its three select
 branches, and the failure path with its publication order, as a state machine whose steps interleave freely.
 A step is what one task does between two points where another task can run or look.
 */
module BatchModel {
  import opened Prelude

  datatype Error = Service(id: nat) | Closed

  datatype Msg = Msg(id: nat, weight: nat)

  /** What the worker sends on a message's response channel: a response future, or an error. */
  datatype Answer = Answer(msg: Msg, error: Option<Error>)

  /** What the inner service is called with. */
  datatype Control = Item(msg: Msg) | Flush

  const QUEUE_BATCH_LIMIT: nat := 64

  datatype Config = Config(maxWeight: nat, maxBatches: nat, permits: nat)

  /** `Batch::pair`: the weight and the queue bound are clamped, the worker's batch limit is not. */
  function Pair(maxItemsWeight: nat, maxBatches: nat): Config {
    var maxWeight := if maxItemsWeight < 1 then 1 else maxItemsWeight;
    var queueBatches :=
      if maxBatches < 1 then 1 else if maxBatches > QUEUE_BATCH_LIMIT then QUEUE_BATCH_LIMIT else maxBatches;
    Config(maxWeight, maxBatches, maxWeight * queueBatches)
  }

  /** What the worker goes on with after publishing a failure. */
  datatype Then =
    | AnswerMessage(msg: Msg, isNew: bool)
    | EndArm(holdsPermit: bool)
    | DrainQueue

  datatype Stage = CloseChannel | CloseSemaphore | SetFailed

  /** Where the worker is. */
  datatype Pc =
    | Select
    | Receiving(msg: Msg, isNew: bool)        // process_req waits for the service
    | Received(isNew: bool)                   // after process_req; the message's permit is still held
    | Flushing(holdsPermit: bool)             // flush_service waits for the service
    | Publishing(stage: Stage, error: Error, after: Then)
    | Draining
    | Dropped

  /** The timer of the pending batch. */
  datatype Timer = Off | Ticking | Elapsed

  /** What a client has seen of the other side. */
  datatype View = Working | Polling | SawClosed | GotError(error: Error)

  datatype System = System(
    cfg: Config,
    // semaphore and channel
    available: nat, semaphoreClosed: bool, held: set<nat>, views: map<nat, View>,
    queue: seq<Msg>, channelClosed: bool,
    // worker
    pc: Pc, pendingWeight: nat, timer: Timer, running: nat, failed: Option<Error>, handle: Option<Error>,
    // history
    accepted: seq<Msg>, answers: seq<Answer>, trace: seq<Control>)

  /** One client, an idle worker, all permits available. */
  function Init(cfg: Config): System {
    System(cfg, cfg.permits, false, {}, map[0 := Working], [], false,
           Select, 0, Off, 0, None, None, [], [], [])
  }

  datatype WorkerEvent =
    | BatchFinished(error: Option<Error>)
    | TimeoutElapses
    | TimerExpired
    | ReceiveMessage
    | ReceiveNone
    | Cancel
    | ServiceReady(error: Option<Error>)
    | AfterRequest
    | Publish
    | Drain

  datatype ClientEvent =
    | CloneInto(clone: nat)
    | DropClient
    | PollClosed
    | PollRelease
    | PollAcquire
    | CallService(msg: Msg)
    | ReadError

  datatype Event = OfWorker(w: WorkerEvent) | OfClient(client: nat, c: ClientEvent)

  // ---------------------------------------------------------------- worker

  /** Leaving a select branch releases the permit of the message it handled. */
  function FinishArm(s: System, holdsPermit: bool): System {
    s.(pc := Select, available := s.available + if holdsPermit then 1 else 0)
  }

  function Resume(s: System, after: Then): System
    requires s.failed.Some?
  {
    match after
    case AnswerMessage(msg, isNew) => s.(answers := s.answers + [Answer(msg, s.failed)], pc := Received(isNew))
    case EndArm(holdsPermit) => FinishArm(s, holdsPermit)
    case DrainQueue => s.(pc := Draining)
  }

  /** `Worker::failed`: expose the error first, unless one is already exposed. */
  function Fail(s: System, error: Error, after: Then): System {
    if s.handle.Some? then (if s.failed.Some? then Resume(s, after) else s)
    else s.(handle := Some(error), pc := Publishing(CloseChannel, error, after))
  }

  /** The later stages of `failed`, in order: close the channel, close the semaphore, remember the error. */
  function PublishStep(s: System): System
    requires s.pc.Publishing?
  {
    match s.pc.stage
    case CloseChannel => s.(channelClosed := true, pc := s.pc.(stage := CloseSemaphore))
    case CloseSemaphore => s.(semaphoreClosed := true, pc := s.pc.(stage := SetFailed))
    case SetFailed => Resume(s.(timer := Off, failed := Some(s.pc.error)), s.pc.after)
  }

  function CanSpawnNewBatches(s: System): bool {
    s.running < s.cfg.maxBatches
  }

  /** The timer branch of the select statement is ready. */
  predicate TimerReady(s: System) {
    s.timer == Elapsed
  }

  /**
   The message branch is looked at: it is enabled, and no earlier branch is ready. The branches are tried in
   order, and a running batch finishes when the first branch takes its result.
   */
  predicate Receives(s: System) {
    s.pc.Select? && CanSpawnNewBatches(s) && !TimerReady(s)
  }

  /** `process_req` up to waiting for the service; a failed worker answers at once. */
  function StartRequest(s: System): System
    requires s.queue != []
  {
    var msg, isNew := s.queue[0], s.pendingWeight == 0;
    var popped := s.(queue := s.queue[1..]);
    if s.failed.Some? then popped.(answers := s.answers + [Answer(msg, s.failed)], pc := Received(isNew))
    else popped.(pc := Receiving(msg, isNew))
  }

  /** The service became ready, or failed, while `process_req` or `flush_service` waited for it. */
  function ServiceStep(s: System, error: Option<Error>): System {
    match s.pc
    case Receiving(msg, isNew) =>
      if error.Some? then Fail(s, error.value, AnswerMessage(msg, isNew))
      else s.(pendingWeight := s.pendingWeight + msg.weight, trace := s.trace + [Item(msg)],
              answers := s.answers + [Answer(msg, None)], pc := Received(isNew))
    case Flushing(holdsPermit) =>
      if error.Some? then Fail(s, error.value, EndArm(holdsPermit))
      else FinishArm(s.(trace := s.trace + [Flush], running := s.running + 1, pendingWeight := 0,
                        timer := Off), holdsPermit)
    case _ => s
  }

  /** `flush_service` up to waiting for the service; a failed worker skips it. */
  function StartFlush(s: System, holdsPermit: bool): System {
    if s.failed.Some? then FinishArm(s, holdsPermit) else s.(pc := Flushing(holdsPermit))
  }

  /** The rest of the message branch: flush a full batch, or start the timer of a new one. */
  function AfterRequestStep(s: System, isNew: bool): System {
    if s.pendingWeight >= s.cfg.maxWeight then StartFlush(s, true)
    else if isNew then FinishArm(s.(timer := Ticking), true)
    else FinishArm(s, true)
  }

  function DrainStep(s: System): System
    requires s.failed.Some?
  {
    if s.queue == [] then s.(pc := Dropped)
    else s.(queue := s.queue[1..], answers := s.answers + [Answer(s.queue[0], s.failed)], available := s.available + 1)
  }

  // ---------------------------------------------------------------- clients

  function Release(s: System, client: nat): System {
    if client in s.held then s.(held := s.held - {client}, available := s.available + 1) else s
  }

  function SetView(s: System, client: nat, view: View): System {
    s.(views := s.views[client := view])
  }

  /** `call`: the permit travels with the message; a closed channel drops both. */
  function CallStep(s: System, client: nat, msg: Msg): System
    requires client in s.held
  {
    if s.channelClosed then SetView(Release(s, client), client, SawClosed)
    else s.(held := s.held - {client}, queue := s.queue + [msg], accepted := s.accepted + [msg])
  }

  /** `get_error_on_closed`. */
  function ErrorOnClosed(s: System): Error {
    if s.handle.Some? then s.handle.value else Closed
  }

  // ---------------------------------------------------------------- all steps

  /** A worker event; one that is not possible in this state changes nothing. */
  function WorkerStep(s: System, e: WorkerEvent): System {
    match e
    case BatchFinished(error) =>
      if s.pc.Select? && s.running > 0 then
        var s' := s.(running := s.running - 1);
        if error.Some? then Fail(s', error.value, EndArm(false)) else s'
      else s
    case TimeoutElapses => if s.timer == Ticking then s.(timer := Elapsed) else s
    case TimerExpired => if s.pc.Select? && TimerReady(s) then StartFlush(s, false) else s
    case ReceiveMessage => if Receives(s) && s.queue != [] then StartRequest(s) else s
    case ReceiveNone =>
      if Receives(s) && s.queue == [] && (s.channelClosed || s.views == map[])
      then Fail(s, Closed, DrainQueue) else s
    case Cancel =>
      // the worker is cancelled at an await point where it holds no unanswered request
      if s.pc.Select? then Fail(s, Closed, DrainQueue)
      else if s.pc.Flushing? then Fail(FinishArm(s, s.pc.holdsPermit), Closed, DrainQueue) else s
    case ServiceReady(error) => ServiceStep(s, error)
    case AfterRequest => if s.pc.Received? then AfterRequestStep(s, s.pc.isNew) else s
    case Publish => if s.pc.Publishing? then PublishStep(s) else s
    case Drain => if s.pc.Draining? && s.failed.Some? then DrainStep(s) else s
  }

  /** An event of one client; one that is not possible in this state changes nothing. */
  function ClientStep(s: System, c: nat, e: ClientEvent): System {
    if c !in s.views then s
    else
      match e
      case CloneInto(d) => if d !in s.views then SetView(s, d, Working) else s
      case DropClient => Release(s, c).(views := s.views - {c})
      case PollClosed => if s.channelClosed then SetView(s, c, SawClosed) else s
      case PollRelease => if s.channelClosed then s else SetView(Release(s, c), c, Polling)
      case PollAcquire =>
        if s.views[c] != Polling || c in s.held then s
        else if s.semaphoreClosed then SetView(s, c, SawClosed)
        else if s.available > 0 then SetView(s, c, Working).(held := s.held + {c}, available := s.available - 1)
        else s
      case CallService(msg) => if s.views[c] == Working && c in s.held then CallStep(s, c, msg) else s
      case ReadError => if s.views[c] == SawClosed then SetView(s, c, GotError(ErrorOnClosed(s))) else s
  }

  function Step(s: System, e: Event): System {
    match e
    case OfWorker(w) => WorkerStep(s, w)
    case OfClient(client, c) => ClientStep(s, client, c)
  }

  function Run(s: System, es: seq<Event>): System {
    if es == [] then s else Step(Run(s, es[..|es| - 1]), es[|es| - 1])
  }
}
