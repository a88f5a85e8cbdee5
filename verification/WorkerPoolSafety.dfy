/** Safety of the worker pool over every run: where each job and each worker's channel is. */
module WorkerPoolSafety {
  import opened FiniteSets
  import opened Folds
  import opened WorkerPool

  // ---- Runs ----------------------------------------------------------------------------------

  lemma {:induction false} RunConcat(s: Pool, run: seq<Step>, more: seq<Step>)
    requires CanRun(s, run)
    ensures CanRun(s, run + more) <==> CanRun(After(s, run), more)
    ensures CanRun(s, run + more) ==> After(s, run + more) == After(After(s, run), more)
    decreases |run|
  {
    if run == [] {
      assert run + more == more;
    } else {
      assert (run + more)[1..] == run[1..] + more;
      RunConcat(Apply(s, run[0]), run[1..], more);
    }
  }

  // ---- Each step keeps the invariant ---------------------------------------------------------

  lemma TokensAfterReceive(s: Pool)
    requires Enabled(s, Receive)
    ensures Tokens(Apply(s, Receive)) == Tokens(s)
  {
    GatherAppend(s.handoffs, Waiting(s.queue[0]), TokenOfHandoff);
  }

  lemma TokensAfterTake(s: Pool, h: nat)
    requires Enabled(s, Take(h))
    ensures Tokens(Apply(s, Take(h))) == Tokens(s)
  {
    var token := s.tokens[0];
    var holding := Holding(s.handoffs[h].job, token);
    assert multiset(s.tokens) == multiset{token} + multiset(s.tokens[1..]) by {
      assert s.tokens == [token] + s.tokens[1..];
    }
    assert Gather(s.handoffs[h := holding], TokenOfHandoff) == Gather(s.handoffs, TokenOfHandoff) + multiset{token} by {
      GatherUpdate(s.handoffs, h, holding, TokenOfHandoff);
      assert TokenOfHandoff(holding) == multiset{token} && TokenOfHandoff(s.handoffs[h]) == multiset{};
    }
  }

  lemma TokensAfterDeliver(s: Pool, h: nat)
    requires Enabled(s, Deliver(h))
    ensures Tokens(Apply(s, Deliver(h))) + multiset{s.handoffs[h].worker} == Tokens(s)
  {
    GatherRemove(s.handoffs, h, TokenOfHandoff);
  }

  /** How the tokens move: only Offer puts one out, only Deliver uses one up. */
  lemma TokensStep(s: Pool, step: Step)
    requires Enabled(s, step)
    ensures step.Offer? ==> Tokens(Apply(s, step)) == Tokens(s) + multiset{step.worker}
    ensures step.Deliver? ==> Tokens(Apply(s, step)) + multiset{s.handoffs[step.handoff].worker} == Tokens(s)
    ensures !step.Offer? && !step.Deliver? ==> Tokens(Apply(s, step)) == Tokens(s)
  {
    if step.Receive? {
      TokensAfterReceive(s);
    } else if step.Take? {
      TokensAfterTake(s, step.handoff);
    } else if step.Deliver? {
      TokensAfterDeliver(s, step.handoff);
    } else {
      assert Apply(s, step).handoffs == s.handoffs;
    }
  }

  lemma DeliverKeepsTokenInv(s: Pool, h: nat, w: nat)
    requires Enabled(s, Deliver(h)) && TokenInv(s, w)
    requires TokenInv(s, s.handoffs[h].worker)
    ensures TokenInv(Apply(s, Deliver(h)), w)
  {
    var t := Apply(s, Deliver(h));
    var v := s.handoffs[h].worker;
    TokensAfterDeliver(s, h);
    assert (Tokens(t) + multiset{v})[w] == Tokens(t)[w] + multiset{v}[w];
  }

  lemma OfferKeepsTokenInv(s: Pool, v: nat, w: nat)
    requires Enabled(s, Offer(v)) && TokenInv(s, w)
    ensures TokenInv(Apply(s, Offer(v)), w)
  {
    var t := Apply(s, Offer(v));
    TokensStep(s, Offer(v));
    assert Tokens(t)[w] == Tokens(s)[w] + multiset{v}[w];
  }

  /** A step that moves no token leaves unchanged who has offered. */
  lemma OtherKeepsTokenInv(s: Pool, step: Step, w: nat)
    requires Enabled(s, step) && !step.Deliver? && !step.Offer? && TokenInv(s, w)
    ensures TokenInv(Apply(s, step), w)
  {
    var t := Apply(s, step);
    TokensStep(s, step);
    assert (w < |t.workers| && HasOffered(t.workers[w])) == (w < |s.workers| && HasOffered(s.workers[w]));
  }

  lemma StepKeepsTokenInv(s: Pool, step: Step, w: nat)
    requires Inv(s) && Enabled(s, step)
    ensures TokenInv(Apply(s, step), w)
  {
    assert TokenInv(s, w);
    if step.Deliver? {
      assert TokenInv(s, s.handoffs[step.handoff].worker);
      DeliverKeepsTokenInv(s, step.handoff, w);
    } else if step.Offer? {
      OfferKeepsTokenInv(s, step.worker, w);
    } else {
      OtherKeepsTokenInv(s, step, w);
    }
  }

  lemma StepKeepsPhases(s: Pool, step: Step)
    requires Inv(s) && Enabled(s, step)
    ensures var t := Apply(s, step);
            && |t.workers| <= t.maxWorkers
            && (t.phase.Dispatching? || t.phase.Stopping? || t.phase.Done? ==> |t.workers| == t.maxWorkers)
            && (t.phase.Stopping? ==> t.phase.next <= |t.workers|)
            && (forall w :: 0 <= w < |t.workers| ==> (t.workers[w].Exited? <==> Stopped(t, w)))
  {
  }

  lemma StepKeepsInv(s: Pool, step: Step)
    requires Inv(s) && Enabled(s, step)
    ensures Inv(Apply(s, step))
  {
    StepKeepsPhases(s, step);
    var t := Apply(s, step);
    forall w: nat ensures TokenInv(t, w) {
      StepKeepsTokenInv(s, step, w);
    }
  }

  lemma {:induction false} RunKeepsInv(s: Pool, run: seq<Step>)
    requires Inv(s) && CanRun(s, run)
    ensures Inv(After(s, run))
    decreases |run|
  {
    if run != [] {
      StepKeepsInv(s, run[0]);
      RunKeepsInv(Apply(s, run[0]), run[1..]);
    }
  }

  lemma ReachableInv(maxWorkers: nat, run: seq<Step>)
    requires CanRun(NewDispatcher(maxWorkers), run)
    ensures Inv(After(NewDispatcher(maxWorkers), run))
  {
    RunKeepsInv(NewDispatcher(maxWorkers), run);
  }

  // ---- Job conservation ----------------------------------------------------------------------

  /** A job's way from the queue to a worker keeps it accounted for. */
  lemma DispatchConservesJobs(s: Pool, step: Step)
    requires Enabled(s, step) && (step.Receive? || step.Take? || step.Deliver?)
    ensures Accounted(Apply(s, step)) == Accounted(s)
  {
    if step.Receive? {
      assert s.queue == [s.queue[0]] + s.queue[1..];
      GatherAppend(s.handoffs, Waiting(s.queue[0]), JobOfHandoff);
    } else if step.Take? {
      var h := step.handoff;
      GatherKeep(s.handoffs, h, Holding(s.handoffs[h].job, s.tokens[0]), JobOfHandoff);
    } else {
      DeliverConservesJobs(s, step.handoff);
    }
  }

  lemma DeliverConservesJobs(s: Pool, h: nat)
    requires Enabled(s, Deliver(h))
    ensures Accounted(Apply(s, Deliver(h))) == Accounted(s)
  {
    var t := Apply(s, Deliver(h));
    var job := s.handoffs[h].job;
    assert InHandoffs(s) == InHandoffs(t) + multiset{job} by {
      GatherRemove(s.handoffs, h, JobOfHandoff);
    }
    assert InWorkers(t) == InWorkers(s) + multiset{job} by {
      GatherUpdate(s.workers, s.handoffs[h].worker, Running(job), JobOfWorker);
    }
  }

  lemma FinishConservesJobs(s: Pool, w: nat)
    requires Enabled(s, Finish(w))
    ensures Accounted(Apply(s, Finish(w))) == Accounted(s)
  {
    var t := Apply(s, Finish(w));
    assert InWorkers(s) == InWorkers(t) + multiset{s.workers[w].job} by {
      GatherUpdate(s.workers, w, Offering, JobOfWorker);
    }
  }

  lemma WorkerConservesJobs(s: Pool, step: Step)
    requires Enabled(s, step) && (step.StartWorker? || step.Offer? || step.Finish? || step.StopWorker?)
    ensures Accounted(Apply(s, step)) == Accounted(s)
  {
    if step.StartWorker? {
      GatherAppend(s.workers, Offering, JobOfWorker);
    } else if step.Offer? {
      GatherKeep(s.workers, step.worker, Idle, JobOfWorker);
    } else if step.Finish? {
      FinishConservesJobs(s, step.worker);
    } else {
      GatherKeep(s.workers, s.phase.next, Exited, JobOfWorker);
    }
  }

  lemma StepConservesJobs(s: Pool, step: Step)
    requires Enabled(s, step)
    ensures Accounted(Apply(s, step)) == Accounted(s) + EnqueuedBy(step)
  {
    if step.Receive? || step.Take? || step.Deliver? {
      DispatchConservesJobs(s, step);
    } else if step.StartWorker? || step.Offer? || step.Finish? || step.StopWorker? {
      WorkerConservesJobs(s, step);
    }
  }

  lemma {:induction false} RunConservesJobs(s: Pool, run: seq<Step>)
    requires CanRun(s, run)
    ensures Accounted(After(s, run)) == Accounted(s) + Enqueued(run)
    decreases |run|
  {
    if run != [] {
      StepConservesJobs(s, run[0]);
      RunConservesJobs(Apply(s, run[0]), run[1..]);
    }
  }

  /** Exactly once: in every reachable state, before and after the exit signal, the jobs in the queue,
      in hand-offs, on workers and completed are together exactly the jobs ever enqueued. */
  lemma JobConservation(maxWorkers: nat, run: seq<Step>)
    requires CanRun(NewDispatcher(maxWorkers), run)
    ensures var s := After(NewDispatcher(maxWorkers), run);
            multiset(s.queue) + InHandoffs(s) + InWorkers(s) + s.completed == Enqueued(run)
  {
    RunConservesJobs(NewDispatcher(maxWorkers), run);
  }

  // ---- Tokens --------------------------------------------------------------------------------

  /** Distinct numbers below `n` that miss one of them are fewer than `n`. */
  lemma {:induction false} FewerThan(xs: seq<nat>, within: set<nat>)
    requires forall x :: multiset(xs)[x] <= if x in within then 1 else 0
    ensures |xs| <= |within|
    decreases |xs|
  {
    if xs != [] {
      var rest := xs[1..];
      assert xs == [xs[0]] + rest;
      assert multiset(xs)[xs[0]] >= 1;
      forall x ensures multiset(rest)[x] <= if x in within - {xs[0]} then 1 else 0 {
        assert multiset(xs)[x] == multiset([xs[0]])[x] + multiset(rest)[x];
      }
      FewerThan(rest, within - {xs[0]});
    }
  }

  /** Each worker's channel occurs at most once in the pool and the hand-offs together, and exactly
      once just when the worker waits in its select or has exited; so the pool never holds more than
      maxWorkers channels, and a worker about to offer its channel is never blocked. */
  lemma TokenUniqueness(maxWorkers: nat, run: seq<Step>)
    requires CanRun(NewDispatcher(maxWorkers), run)
    ensures var s := After(NewDispatcher(maxWorkers), run);
            && (forall w: nat :: Tokens(s)[w] <= 1)
            && (forall w: nat :: Tokens(s)[w] == 1 <==> w < |s.workers| && HasOffered(s.workers[w]))
            && |s.tokens| <= maxWorkers
            && (forall w :: 0 <= w < |s.workers| && s.workers[w].Offering? ==> Enabled(s, Offer(w)))
  {
    var s := After(NewDispatcher(maxWorkers), run);
    ReachableInv(maxWorkers, run);
    RunKeepsMax(NewDispatcher(maxWorkers), run);
    PoolHasRoom(s);
    forall w: nat
      ensures Tokens(s)[w] <= 1
      ensures Tokens(s)[w] == 1 <==> w < |s.workers| && HasOffered(s.workers[w])
    {
      assert TokenInv(s, w);
    }
  }

  lemma PoolHasRoom(s: Pool)
    requires Inv(s)
    ensures |s.tokens| <= |s.workers|
    ensures forall w :: 0 <= w < |s.workers| && s.workers[w].Offering? ==> |s.tokens| < s.maxWorkers
  {
    var numbers := Below(|s.workers|);
    forall x ensures multiset(s.tokens)[x] <= if x in numbers then 1 else 0 {
      assert multiset(s.tokens)[x] <= Tokens(s)[x] && TokenInv(s, x);
    }
    FewerThan(s.tokens, numbers);
    forall w | 0 <= w < |s.workers| && s.workers[w].Offering? ensures |s.tokens| < s.maxWorkers {
      forall x ensures multiset(s.tokens)[x] <= if x in numbers - {w} then 1 else 0 {
        assert multiset(s.tokens)[x] <= Tokens(s)[x] && TokenInv(s, x);
      }
      FewerThan(s.tokens, numbers - {w});
    }
  }

  lemma {:induction false} RunKeepsMax(s: Pool, run: seq<Step>)
    requires CanRun(s, run)
    ensures After(s, run).maxWorkers == s.maxWorkers
    decreases |run|
  {
    if run != [] {
      RunKeepsMax(Apply(s, run[0]), run[1..]);
    }
  }

  // ---- A running job finishes before its worker exits ----------------------------------------

  /** Whatever else happens, a worker seen running a job and later seen exited has returned from that
      very job in between. */
  lemma {:induction false} RunningJobFinishesFirst(s: Pool, run: seq<Step>, w: nat) returns (i: nat)
    requires CanRun(s, run) && w < |s.workers| && s.workers[w].Running?
    requires w < |After(s, run).workers| && After(s, run).workers[w].Exited?
    ensures i < |run| && run[i] == Finish(w)
    ensures CanRun(s, run[..i])
    ensures var t := After(s, run[..i]); w < |t.workers| && t.workers[w] == s.workers[w]
    decreases |run|
  {
    if run[0] == Finish(w) {
      i := 0;
    } else {
      var j := RunningJobFinishesFirst(Apply(s, run[0]), run[1..], w);
      i := j + 1;
      assert run[..i][1..] == run[1..][..j];
    }
  }

  // ---- Order ---------------------------------------------------------------------------------

  /** The job of the hand-off goroutine that the step starts. */
  function StartedBy(s: Pool, step: Step): seq<Job>
    requires Enabled(s, step)
  {
    var handoffs := Apply(s, step).handoffs;
    if step.Receive? then [handoffs[|handoffs| - 1].job] else []
  }

  /** The worker that a hand-off goroutine takes in the step. */
  function TakenBy(s: Pool, step: Step): seq<nat>
    requires Enabled(s, step)
  {
    if step.Take? then [Apply(s, step).handoffs[step.handoff].worker] else []
  }

  ghost function JobsStarted(s: Pool, run: seq<Step>): seq<Job>
    requires CanRun(s, run)
    decreases |run|
  {
    if run == [] then [] else StartedBy(s, run[0]) + JobsStarted(Apply(s, run[0]), run[1..])
  }

  ghost function WorkersTaken(s: Pool, run: seq<Step>): seq<nat>
    requires CanRun(s, run)
    decreases |run|
  {
    if run == [] then [] else TakenBy(s, run[0]) + WorkersTaken(Apply(s, run[0]), run[1..])
  }

  ghost function JobsEnqueued(run: seq<Step>): seq<Job> {
    if run == [] then [] else (if run[0].Enqueue? then [run[0].job] else []) + JobsEnqueued(run[1..])
  }

  ghost function WorkersOffered(run: seq<Step>): seq<nat> {
    if run == [] then [] else (if run[0].Offer? then [run[0].worker] else []) + WorkersOffered(run[1..])
  }

  lemma StepInOrder(s: Pool, step: Step)
    requires Enabled(s, step)
    ensures StartedBy(s, step) + Apply(s, step).queue == s.queue + if step.Enqueue? then [step.job] else []
    ensures TakenBy(s, step) + Apply(s, step).tokens == s.tokens + if step.Offer? then [step.worker] else []
  {
  }

  lemma Chain<T>(done: seq<T>, more: seq<T>, left: seq<T>, between: seq<T>, before: seq<T>, new0: seq<T>, rest: seq<T>)
    requires done + between == before + new0 && more + left == between + rest
    ensures done + more + left == before + (new0 + rest)
  {
    assert done + more + left == done + (more + left) == done + between + rest;
  }

  /** Both channels are queues: whatever the run, jobs are started on in the order in which they were
      enqueued, and workers are taken in the order in which they offered themselves. */
  lemma {:induction false} FirstComeFirstServed(s: Pool, run: seq<Step>)
    requires CanRun(s, run)
    ensures JobsStarted(s, run) + After(s, run).queue == s.queue + JobsEnqueued(run)
    ensures WorkersTaken(s, run) + After(s, run).tokens == s.tokens + WorkersOffered(run)
    decreases |run|
  {
    hide Apply, Enabled, StartedBy, TakenBy;
    if run != [] {
      var t := Apply(s, run[0]);
      StepInOrder(s, run[0]);
      FirstComeFirstServed(t, run[1..]);
      Chain(StartedBy(s, run[0]), JobsStarted(t, run[1..]), After(s, run).queue, t.queue, s.queue,
            if run[0].Enqueue? then [run[0].job] else [], JobsEnqueued(run[1..]));
      Chain(TakenBy(s, run[0]), WorkersTaken(t, run[1..]), After(s, run).tokens, t.tokens, s.tokens,
            if run[0].Offer? then [run[0].worker] else [], WorkersOffered(run[1..]));
    }
  }
}
