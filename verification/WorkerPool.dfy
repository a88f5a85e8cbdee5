/** The worker pool of internal/worker as a transition system.

    A dispatcher goroutine starts `maxWorkers` workers and then serves two channels: for every job it
    receives it spawns one hand-off goroutine, which takes a worker's job channel from the pool and
    sends the job down it; on the exit signal it stops the workers one after another.  A worker loops:
    it puts its own job channel into the pool, then waits for a job or for its stop signal.

    Worker w's job channel is the token w.  One step of the system is one channel operation, or one
    job returning from Run. */
module WorkerPool {
  import opened Folds

  /** A job, by its ID.  The same ID may be enqueued many times. */
  type Job = string

  datatype WorkerState =
    | Offering              // about to send its channel into the pool
    | Idle                  // in the select, waiting for a job or for its stop signal
    | Running(job: Job)
    | Exited

  datatype Handoff =
    | Waiting(job: Job)                 // about to receive a worker's channel from the pool
    | Holding(job: Job, worker: nat)    // about to send the job down that worker's channel

  datatype Phase =
    | Starting              // the loop that creates and starts the workers
    | Failed                // a UUID could not be made: the dispatcher goroutine is gone
    | Dispatching           // in the select over the job queue and the exit channel
    | Stopping(next: nat)   // took the exit signal; about to stop worker `next`
    | Done

  datatype Pool = Pool(
    maxWorkers: nat,
    phase: Phase,
    queue: seq<Job>,              // contents of the job queue
    tokens: seq<nat>,             // contents of the WorkerPool channel
    handoffs: seq<Handoff>,
    workers: seq<WorkerState>,    // the workers started so far
    completed: multiset<Job>)     // jobs whose Run has returned

  datatype Step =
    | Enqueue(job: Job)
    | StartWorker
    | StartFails
    | StartDone
    | Receive
    | Take(handoff: nat)
    | Deliver(handoff: nat)
    | Offer(worker: nat)
    | Finish(worker: nat)
    | TakeExit
    | StopWorker
    | StopDone

  function NewDispatcher(maxWorkers: nat): Pool {
    Pool(maxWorkers, Starting, [], [], [], [], multiset{})
  }

  predicate Enabled(s: Pool, step: Step) {
    match step
    case Enqueue(_) => true
    case StartWorker => s.phase.Starting? && |s.workers| < s.maxWorkers
    case StartFails => s.phase.Starting? && |s.workers| < s.maxWorkers
    case StartDone => s.phase.Starting? && |s.workers| >= s.maxWorkers
    case Receive => s.phase.Dispatching? && s.queue != []
    case Take(h) => h < |s.handoffs| && s.handoffs[h].Waiting? && s.tokens != []
    case Deliver(h) =>
      && h < |s.handoffs| && s.handoffs[h].Holding?
      && s.handoffs[h].worker < |s.workers| && s.workers[s.handoffs[h].worker].Idle?
    case Offer(w) => w < |s.workers| && s.workers[w].Offering? && |s.tokens| < s.maxWorkers
    case Finish(w) => w < |s.workers| && s.workers[w].Running?
    case TakeExit => s.phase.Dispatching?
    case StopWorker => s.phase.Stopping? && s.phase.next < |s.workers| && s.workers[s.phase.next].Idle?
    case StopDone => s.phase.Stopping? && s.phase.next >= |s.workers|
  }

  function Apply(s: Pool, step: Step): Pool
    requires Enabled(s, step)
  {
    match step
    case Enqueue(job) => s.(queue := s.queue + [job])
    case StartWorker => s.(workers := s.workers + [Offering])
    case StartFails => s.(phase := Failed)
    case StartDone => s.(phase := Dispatching)
    case Receive => s.(queue := s.queue[1..], handoffs := s.handoffs + [Waiting(s.queue[0])])
    case Take(h) =>
      s.(tokens := s.tokens[1..], handoffs := s.handoffs[h := Holding(s.handoffs[h].job, s.tokens[0])])
    case Deliver(h) =>
      s.(handoffs := s.handoffs[..h] + s.handoffs[h + 1..],
         workers := s.workers[s.handoffs[h].worker := Running(s.handoffs[h].job)])
    case Offer(w) => s.(tokens := s.tokens + [w], workers := s.workers[w := Idle])
    case Finish(w) =>
      s.(completed := s.completed + multiset{s.workers[w].job}, workers := s.workers[w := Offering])
    case TakeExit => s.(phase := Stopping(0))
    case StopWorker => s.(phase := Stopping(s.phase.next + 1), workers := s.workers[s.phase.next := Exited])
    case StopDone => s.(phase := Done)
  }

  /** A run is the list of its steps, in the order in which they happen. */
  ghost predicate CanRun(s: Pool, run: seq<Step>)
    decreases |run|
  {
    run == [] || (Enabled(s, run[0]) && CanRun(Apply(s, run[0]), run[1..]))
  }

  ghost function After(s: Pool, run: seq<Step>): Pool
    requires CanRun(s, run)
    decreases |run|
  {
    if run == [] then s else After(Apply(s, run[0]), run[1..])
  }

  // ---- Where jobs and tokens are -------------------------------------------------------------

  function JobOfHandoff(h: Handoff): multiset<Job> { multiset{h.job} }

  function JobOfWorker(w: WorkerState): multiset<Job> { if w.Running? then multiset{w.job} else multiset{} }

  function TokenOfHandoff(h: Handoff): multiset<nat> { if h.Holding? then multiset{h.worker} else multiset{} }

  ghost function InHandoffs(s: Pool): multiset<Job> { Gather(s.handoffs, JobOfHandoff) }

  ghost function InWorkers(s: Pool): multiset<Job> { Gather(s.workers, JobOfWorker) }

  ghost function Unfinished(s: Pool): multiset<Job> { multiset(s.queue) + InHandoffs(s) + InWorkers(s) }

  /** Every job the system knows of, with its multiplicity. */
  ghost function Accounted(s: Pool): multiset<Job> { Unfinished(s) + s.completed }

  /** Every occurrence of a worker's channel, in the pool or in the hands of a hand-off goroutine. */
  ghost function Tokens(s: Pool): multiset<nat> { multiset(s.tokens) + Gather(s.handoffs, TokenOfHandoff) }

  function EnqueuedBy(step: Step): multiset<Job> { if step.Enqueue? then multiset{step.job} else multiset{} }

  ghost function Enqueued(run: seq<Step>): multiset<Job> { Gather(run, EnqueuedBy) }

  // ---- The inductive invariant ---------------------------------------------------------------

  /** The worker is past its offer: its channel is out, and it will not put it there again before it
      has run a job. */
  predicate HasOffered(w: WorkerState) { w.Idle? || w.Exited? }

  predicate Stopped(s: Pool, w: nat) {
    s.phase.Done? || (s.phase.Stopping? && w < s.phase.next)
  }

  /** Worker w's channel is out exactly once when w has offered it, and not at all otherwise. */
  ghost predicate TokenInv(s: Pool, w: nat) {
    Tokens(s)[w] == if w < |s.workers| && HasOffered(s.workers[w]) then 1 else 0
  }

  ghost predicate Inv(s: Pool) {
    && |s.workers| <= s.maxWorkers
    && (s.phase.Dispatching? || s.phase.Stopping? || s.phase.Done? ==> |s.workers| == s.maxWorkers)
    && (s.phase.Stopping? ==> s.phase.next <= |s.workers|)
    && (forall w :: 0 <= w < |s.workers| ==> (s.workers[w].Exited? <==> Stopped(s, w)))
    && (forall w: nat :: TokenInv(s, w))
  }
}
