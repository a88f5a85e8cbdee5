/** Progress of the worker pool: it drains before the exit signal and shuts down after it, and what
    shutting down leaves behind. */
module WorkerPoolLiveness {
  import opened Folds
  import opened WorkerPool
  import opened WorkerPoolSafety

  function HandoffWeight(h: Handoff): nat { if h.Waiting? then 4 else 3 }

  function WorkerWeight(w: WorkerState): nat { if w.Running? then 2 else if w.Offering? then 1 else 0 }

  function PhaseWeight(s: Pool): nat {
    match s.phase
    case Starting => if |s.workers| <= s.maxWorkers then 2 * (s.maxWorkers - |s.workers|) + 1 else 1
    case Stopping(next) => if next <= |s.workers| then |s.workers| - next + 1 else 1
    case _ => 0
  }

  /** The number of steps still to be taken for everything that has left the queue. */
  ghost function Work(s: Pool): nat {
    Total(s.handoffs, HandoffWeight) + Total(s.workers, WorkerWeight) + PhaseWeight(s)
  }

  /** The same with the queue, each of whose jobs has five steps ahead of it. */
  ghost function Backlog(s: Pool): nat { 5 * |s.queue| + Work(s) }

  /** The steps by which a pool that nobody enqueues to, and nobody stops, makes progress. */
  predicate Draining(step: Step) {
    step.StartWorker? || step.StartDone? || step.Receive? || step.Take? || step.Deliver? || step.Offer? || step.Finish?
  }

  predicate Serving(s: Pool) { s.phase.Starting? || s.phase.Dispatching? }

  ghost predicate AllDraining(run: seq<Step>) { forall i :: 0 <= i < |run| ==> Draining(run[i]) }

  /** No draining step is enabled. */
  ghost predicate Drained(s: Pool) { forall step: Step :: Draining(step) ==> !Enabled(s, step) }

  // ---- Every step but an enqueue takes one unit of work away ---------------------------------

  lemma HandoffStepWork(s: Pool, step: Step)
    requires Enabled(s, step) && (step.Receive? || step.Take?)
    ensures Work(Apply(s, step)) == if step.Receive? then Work(s) + 4 else Work(s) - 1
  {
    if step.Receive? {
      TotalAppend(s.handoffs, Waiting(s.queue[0]), HandoffWeight);
    } else {
      var h := step.handoff;
      TotalUpdate(s.handoffs, h, Holding(s.handoffs[h].job, s.tokens[0]), HandoffWeight);
    }
  }

  lemma DeliverWork(s: Pool, h: nat)
    requires Enabled(s, Deliver(h))
    ensures Work(Apply(s, Deliver(h))) == Work(s) - 1
  {
    TotalRemove(s.handoffs, h, HandoffWeight);
    TotalUpdate(s.workers, s.handoffs[h].worker, Running(s.handoffs[h].job), WorkerWeight);
  }

  lemma WorkerStepWork(s: Pool, step: Step)
    requires Inv(s) && Enabled(s, step)
    requires step.StartWorker? || step.Offer? || step.Finish? || step.StopWorker?
    ensures Work(Apply(s, step)) == Work(s) - 1
  {
    if step.StartWorker? {
      TotalAppend(s.workers, Offering, WorkerWeight);
    } else if step.Offer? {
      TotalUpdate(s.workers, step.worker, Idle, WorkerWeight);
    } else if step.Finish? {
      TotalUpdate(s.workers, step.worker, Offering, WorkerWeight);
    } else {
      TotalUpdate(s.workers, s.phase.next, Exited, WorkerWeight);
    }
  }

  lemma StepWork(s: Pool, step: Step)
    requires Inv(s) && Enabled(s, step)
    requires !step.Enqueue? && !step.StartFails? && !step.TakeExit?
    ensures Backlog(Apply(s, step)) == Backlog(s) - 1
    ensures !step.Receive? ==> Work(Apply(s, step)) == Work(s) - 1
  {
    if step.Receive? || step.Take? {
      HandoffStepWork(s, step);
    } else if step.Deliver? {
      DeliverWork(s, step.handoff);
    } else if step.StartDone? || step.StopDone? {
      var t := Apply(s, step);
      assert t.handoffs == s.handoffs && t.workers == s.workers;
    } else {
      WorkerStepWork(s, step);
    }
  }

  // ---- Before the exit signal: draining ------------------------------------------------------

  lemma DrainingStep(s: Pool, step: Step)
    requires Inv(s) && Serving(s) && Enabled(s, step) && Draining(step)
    ensures Inv(Apply(s, step)) && Serving(Apply(s, step))
    ensures Backlog(Apply(s, step)) == Backlog(s) - 1
    ensures Accounted(Apply(s, step)) == Accounted(s)
  {
    StepKeepsInv(s, step);
    StepWork(s, step);
    StepConservesJobs(s, step);
  }

  lemma {:induction false} DrainingRun(s: Pool, run: seq<Step>)
    requires Inv(s) && Serving(s) && CanRun(s, run) && AllDraining(run)
    ensures Inv(After(s, run)) && Serving(After(s, run))
    ensures Backlog(After(s, run)) + |run| == Backlog(s)
    ensures Accounted(After(s, run)) == Accounted(s)
    decreases |run|
  {
    if run != [] {
      DrainingStep(s, run[0]);
      DrainingRun(Apply(s, run[0]), run[1..]);
    }
  }

  /** A worker whose channel is out and who has not exited waits in its select, so whoever holds its
      channel can deliver. */
  lemma HolderCanDeliver(s: Pool, h: nat)
    requires Inv(s) && Serving(s) && h < |s.handoffs| && s.handoffs[h].Holding?
    ensures Enabled(s, Deliver(h))
  {
    var w := s.handoffs[h].worker;
    GatherIncludes(s.handoffs, h, TokenOfHandoff);
    assert multiset{w} <= Tokens(s);
    assert w in Tokens(s);
    assert TokenInv(s, w);
  }

  lemma WaitingCanProgress(s: Pool, h: nat) returns (step: Step)
    requires Inv(s) && Serving(s) && h < |s.handoffs| && s.handoffs[h].Waiting?
    requires |s.workers| > 0 && HasOffered(s.workers[0])
    ensures Draining(step) && Enabled(s, step)
  {
    if s.tokens != [] {
      step := Take(h);
    } else {
      assert TokenInv(s, 0);
      assert 0 in Gather(s.handoffs, TokenOfHandoff);
      var g := GatherMember(s.handoffs, 0, TokenOfHandoff);
      HolderCanDeliver(s, g);
      step := Deliver(g);
    }
  }

  /** Before the exit signal a pool with a worker is never stuck while there is work. */
  lemma SomeDrainingStep(s: Pool) returns (step: Step)
    requires Inv(s) && Serving(s) && s.maxWorkers >= 1 && Backlog(s) > 0
    ensures Draining(step) && Enabled(s, step)
  {
    if s.phase.Starting? {
      step := if |s.workers| < s.maxWorkers then StartWorker else StartDone;
    } else if s.queue != [] {
      step := Receive;
    } else if w: nat :| w < |s.workers| && s.workers[w].Running? {
      step := Finish(w);
    } else if w: nat :| w < |s.workers| && s.workers[w].Offering? {
      PoolHasRoom(s);
      step := Offer(w);
    } else {
      TotalZero(s.workers, WorkerWeight);
      assert s.handoffs != [];
      if s.handoffs[0].Holding? {
        HolderCanDeliver(s, 0);
        step := Deliver(0);
      } else {
        step := WaitingCanProgress(s, 0);
      }
    }
  }

  lemma NothingLeft(s: Pool)
    requires Backlog(s) == 0
    ensures Unfinished(s) == multiset{} && Drained(s)
  {
    TotalZero(s.handoffs, HandoffWeight);
    TotalZero(s.workers, WorkerWeight);
    assert |s.handoffs| > 0 ==> HandoffWeight(s.handoffs[0]) > 0;
    forall i | 0 <= i < |s.workers| ensures JobOfWorker(s.workers[i]) == multiset{} {
      assert WorkerWeight(s.workers[i]) == 0;
    }
    GatherEmpty(s.workers, JobOfWorker);
    forall step | Draining(step) ensures !Enabled(s, step) {
      if (step.Offer? || step.Finish?) && step.worker < |s.workers| {
        assert WorkerWeight(s.workers[step.worker]) == 0;
      }
    }
  }

  lemma {:induction false} NoWorkersNoCompletion(s: Pool, run: seq<Step>)
    requires Inv(s) && s.maxWorkers == 0 && CanRun(s, run)
    ensures After(s, run).completed == s.completed
    decreases |run|
  {
    if run != [] {
      StepKeepsInv(s, run[0]);
      NoWorkersNoCompletion(Apply(s, run[0]), run[1..]);
    }
  }

  /** Draining.  From any reachable state before the exit signal, and while nobody enqueues, a pool
      with a worker comes to rest after exactly Backlog steps on every run, whatever is chosen, and at
      rest every job ever enqueued has completed.  A pool without workers completes nothing. */
  lemma Drain(maxWorkers: nat, run: seq<Step>, more: seq<Step>)
    requires CanRun(NewDispatcher(maxWorkers), run)
    requires var s := After(NewDispatcher(maxWorkers), run); Serving(s) && CanRun(s, more) && AllDraining(more)
    ensures var s := After(NewDispatcher(maxWorkers), run);
            var t := After(s, more);
            && |more| <= Backlog(s)
            && (maxWorkers >= 1 ==> (Drained(t) <==> |more| == Backlog(s)))
            && (Drained(t) ==>
                  (t.completed == Enqueued(run) <==> maxWorkers >= 1 || Enqueued(run) == multiset{}))
  {
    var s0 := NewDispatcher(maxWorkers);
    var s := After(s0, run);
    var t := After(s, more);
    ReachableInv(maxWorkers, run);
    RunKeepsMax(s0, run);
    RunKeepsMax(s, more);
    JobConservation(maxWorkers, run);
    DrainingRun(s, more);
    if Backlog(t) == 0 {
      NothingLeft(t);
    } else if maxWorkers >= 1 {
      var step := SomeDrainingStep(t);
    }
    if maxWorkers == 0 {
      NoWorkersNoCompletion(s0, run);
      NoWorkersNoCompletion(s, more);
    }
  }

  // ---- After the exit signal: shutting down --------------------------------------------------

  predicate ShuttingDown(s: Pool) { s.phase.Stopping? || s.phase.Done? }

  function IsInternal(step: Step): nat { if step.Enqueue? then 0 else 1 }

  /** The steps of a run other than enqueues made by the pool's clients. */
  ghost function Internal(run: seq<Step>): nat { Total(run, IsInternal) }

  ghost predicate AtRest(s: Pool) { forall step: Step :: !step.Enqueue? ==> !Enabled(s, step) }

  lemma {:induction false} ShutdownRun(s: Pool, run: seq<Step>)
    requires Inv(s) && ShuttingDown(s) && CanRun(s, run)
    ensures Inv(After(s, run)) && ShuttingDown(After(s, run))
    ensures Internal(run) + Work(After(s, run)) == Work(s)
    decreases |run|
  {
    if run != [] {
      StepKeepsInv(s, run[0]);
      if run[0].Enqueue? {
        assert Work(Apply(s, run[0])) == Work(s);
      } else {
        StepWork(s, run[0]);
      }
      ShutdownRun(Apply(s, run[0]), run[1..]);
    }
  }

  /** The stop loop never blocks for good: the worker it waits for is idle and takes the stop signal,
      or can move towards being idle. */
  function StopStep(s: Pool): Step
    requires s.phase.Stopping?
  {
    var n := s.phase.next;
    if n >= |s.workers| then StopDone
    else match s.workers[n]
      case Offering => Offer(n)
      case Running(_) => Finish(n)
      case _ => StopWorker
  }

  lemma StopStepEnabled(s: Pool)
    requires Inv(s) && s.phase.Stopping?
    ensures Enabled(s, StopStep(s)) && !StopStep(s).Enqueue?
  {
    PoolHasRoom(s);
  }

  /** Shutdown terminates.  Once the dispatcher has taken the exit signal, every run makes at most Work
      further steps other than its clients' enqueues, it can only come to rest with the dispatcher gone
      and every worker exited, and no job is then running. */
  lemma ShutdownTerminates(maxWorkers: nat, run: seq<Step>, more: seq<Step>)
    requires CanRun(NewDispatcher(maxWorkers), run)
    requires var s := After(NewDispatcher(maxWorkers), run); ShuttingDown(s) && CanRun(s, more)
    ensures var s := After(NewDispatcher(maxWorkers), run);
            var t := After(s, more);
            && Internal(more) <= Work(s)
            && (AtRest(t) || t.phase.Done? ==>
                  && t.phase.Done?
                  && |t.workers| == maxWorkers
                  && (forall w :: 0 <= w < maxWorkers ==> t.workers[w].Exited?)
                  && InWorkers(t) == multiset{})
  {
    var s := After(NewDispatcher(maxWorkers), run);
    var t := After(s, more);
    ReachableInv(maxWorkers, run);
    RunKeepsMax(NewDispatcher(maxWorkers), run);
    RunKeepsMax(s, more);
    ShutdownRun(s, more);
    if t.phase.Stopping? {
      StopStepEnabled(t);
    } else {
      DoneMeansIdle(t);
    }
  }

  lemma DoneMeansIdle(s: Pool)
    requires Inv(s) && s.phase.Done?
    ensures InWorkers(s) == multiset{}
  {
    GatherEmpty(s.workers, JobOfWorker);
  }

  /** Once the dispatcher is gone nothing completes any more, and no job leaves its hand-off. */
  lemma {:induction false} DoneIsFinal(s: Pool, run: seq<Step>)
    requires Inv(s) && s.phase.Done? && CanRun(s, run)
    ensures After(s, run).completed == s.completed
    ensures InHandoffs(After(s, run)) == InHandoffs(s)
    decreases |run|
  {
    if run != [] {
      var t := Apply(s, run[0]);
      StepKeepsInv(s, run[0]);
      if run[0].Take? {
        var h := run[0].handoff;
        GatherKeep(s.handoffs, h, Holding(s.handoffs[h].job, s.tokens[0]), JobOfHandoff);
      }
      DoneIsFinal(t, run[1..]);
    }
  }

  ghost predicate NoEnqueue(run: seq<Step>) { forall i :: 0 <= i < |run| ==> !run[i].Enqueue? }

  /** The stop loop can win every race: some run stops all workers without a single delivery. */
  lemma {:induction false} StopWithoutDelivering(s: Pool) returns (run: seq<Step>)
    requires Inv(s) && s.phase.Stopping?
    ensures CanRun(s, run) && NoEnqueue(run)
    ensures After(s, run).phase.Done?
    ensures After(s, run).handoffs == s.handoffs && After(s, run).queue == s.queue
    decreases Work(s)
  {
    var step := StopStep(s);
    StopStepEnabled(s);
    StepKeepsInv(s, step);
    StepWork(s, step);
    var t := Apply(s, step);
    var rest := [];
    if t.phase.Stopping? {
      rest := StopWithoutDelivering(t);
    }
    run := [step] + rest;
    assert run[1..] == rest;
  }

  lemma {:induction false} NothingAccepted(s: Pool, run: seq<Step>)
    requires Inv(s) && ShuttingDown(s) && CanRun(s, run) && NoEnqueue(run)
    requires s.queue == [] && s.handoffs == []
    ensures After(s, run).queue == [] && After(s, run).handoffs == []
    decreases |run|
  {
    if run != [] {
      StepKeepsInv(s, run[0]);
      NothingAccepted(Apply(s, run[0]), run[1..]);
    }
  }

  ghost predicate FinishesEverything(s: Pool) {
    forall run :: CanRun(s, run) && NoEnqueue(run) && After(s, run).phase.Done? ==>
      Unfinished(After(s, run)) == multiset{}
  }

  /** What shutdown promises about jobs already enqueued: all of them are sure to be finished exactly
      when none is left in the queue or in a hand-off at the exit signal.  Otherwise some run strands
      one, and by DoneIsFinal for good. */
  lemma ShutdownLosesNothingIff(maxWorkers: nat, run: seq<Step>)
    requires CanRun(NewDispatcher(maxWorkers), run)
    requires After(NewDispatcher(maxWorkers), run).phase.Stopping?
    ensures var s := After(NewDispatcher(maxWorkers), run);
            FinishesEverything(s) <==> s.queue == [] && s.handoffs == []
  {
    var s := After(NewDispatcher(maxWorkers), run);
    ReachableInv(maxWorkers, run);
    if s.queue == [] && s.handoffs == [] {
      forall more | CanRun(s, more) && NoEnqueue(more) && After(s, more).phase.Done?
        ensures Unfinished(After(s, more)) == multiset{}
      {
        NothingAccepted(s, more);
        ShutdownRun(s, more);
        DoneMeansIdle(After(s, more));
      }
    } else {
      var more := StopWithoutDelivering(s);
      var t := After(s, more);
      if t.handoffs != [] {
        GatherIncludes(t.handoffs, 0, JobOfHandoff);
        assert t.handoffs[0].job in Unfinished(t);
      } else {
        assert t.queue[0] in Unfinished(t);
      }
    }
  }

  lemma Extended(s: Pool, run: seq<Step>, step: Step) returns (longer: seq<Step>)
    requires CanRun(s, run) && Enabled(After(s, run), step)
    ensures CanRun(s, longer) && After(s, longer) == Apply(After(s, run), step)
  {
    longer := run + [step];
    assert CanRun(Apply(After(s, run), step), []);
    assert [step][1..] == [];
    RunConcat(s, run, [step]);
  }

  /** A shutdown that strands two jobs, one in a hand-off and one in the queue, though the only worker
      is idle all the time. */
  lemma ShutdownStrandsJobs(a: Job, b: Job) returns (run: seq<Step>)
    ensures CanRun(NewDispatcher(1), run)
    ensures var t := After(NewDispatcher(1), run);
            t.phase.Done? && t.handoffs == [Waiting(a)] && t.queue == [b] && t.completed == multiset{}
  {
    var s := NewDispatcher(1);
    run := Extended(s, [], StartWorker);
    run := Extended(s, run, StartDone);
    run := Extended(s, run, Offer(0));
    run := Extended(s, run, Enqueue(a));
    run := Extended(s, run, Enqueue(b));
    run := Extended(s, run, Receive);
    run := Extended(s, run, TakeExit);
    run := Extended(s, run, StopWorker);
    run := Extended(s, run, StopDone);
  }

  // ---- A failed start ------------------------------------------------------------------------

  ghost predicate Untouched(s: Pool) {
    s.phase.Starting? || s.phase.Failed? ==>
      s.handoffs == [] && s.completed == multiset{} && forall w :: 0 <= w < |s.workers| ==> !s.workers[w].Running?
  }

  lemma {:induction false} StartRunsNothing(s: Pool, run: seq<Step>)
    requires Untouched(s) && CanRun(s, run)
    ensures Untouched(After(s, run))
    decreases |run|
  {
    if run != [] {
      StartRunsNothing(Apply(s, run[0]), run[1..]);
    }
  }

  /** When a worker's UUID cannot be made the dispatcher goroutine ends silently: the workers it had
      started stay, but every job ever enqueued is left in the queue. */
  lemma FailedStartStrandsAll(maxWorkers: nat, run: seq<Step>)
    requires CanRun(NewDispatcher(maxWorkers), run)
    requires After(NewDispatcher(maxWorkers), run).phase.Failed?
    ensures multiset(After(NewDispatcher(maxWorkers), run).queue) == Enqueued(run)
  {
    var s := After(NewDispatcher(maxWorkers), run);
    StartRunsNothing(NewDispatcher(maxWorkers), run);
    JobConservation(maxWorkers, run);
    GatherEmpty(s.workers, JobOfWorker);
  }
}
