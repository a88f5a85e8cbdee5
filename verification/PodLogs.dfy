/** The goroutines of GetPodLogs in internal/kubernetes/agent.go as a transition system: two producers
    that share an unbuffered error channel, a goroutine that closes the channel when both are done, and
    a consumer that closes the streams on the first value it receives. */
module PodLogs {
  import opened Folds
  import opened Options

  /** An error value; nil is None. */
  type Error = Option<string>

  datatype Producer =
    | Reading               // in ReadMessage, or in ReadBytes
    | Writing               // the log producer, passing a line to the websocket
    | Sending(value: Error) // blocked in its send on the error channel
    | Leaving               // returning or panicking; its deferred Done is still to run
    | Finished

  datatype Consumer =
    | Receiving
    | Handling              // in the body of the range loop
    | Returned(result: Error)

  datatype State = State(
    socket: Producer,       // listens for the websocket's closing handshake
    logs: Producer,         // copies log lines to the websocket
    pending: nat,           // the WaitGroup
    channelClosed: bool,
    channelCloses: nat,
    consumer: Consumer,
    err: Error,             // the consumer's err variable
    streamsClosed: bool,    // what the Once guards
    streamCloses: nat)

  datatype Step =
    | SocketMessage
    | SocketError
    | SocketPanic
    | LogLine
    | LogError(error: string)
    | LineWritten
    | WriteError(error: string)
    | LogPanic
    | SocketSend            // rendezvous with the consumer
    | LogSend
    | SocketDone            // the deferred Done
    | LogDone
    | CloseChannel
    | Handle
    | Return

  const INITIAL := State(Reading, Reading, 2, false, 0, Receiving, None, false, 0)

  /** Once the streams are closed, reading the websocket and writing to it fail; lines already buffered
      can still be read from the log stream. */
  predicate Enabled(s: State, step: Step) {
    match step
    case SocketMessage => s.socket.Reading? && !s.streamsClosed
    case SocketError => s.socket.Reading?
    case SocketPanic => s.socket.Reading?
    case LogLine => s.logs.Reading?
    case LogError(_) => s.logs.Reading?
    case LineWritten => s.logs.Writing? && !s.streamsClosed
    case WriteError(_) => s.logs.Writing?
    case LogPanic => s.logs.Reading? || s.logs.Writing?
    case SocketSend => s.socket.Sending? && s.consumer.Receiving? && !s.channelClosed
    case LogSend => s.logs.Sending? && s.consumer.Receiving? && !s.channelClosed
    case SocketDone => s.socket.Leaving?
    case LogDone => s.logs.Leaving?
    case CloseChannel => s.pending == 0 && !s.channelClosed
    case Handle => s.consumer.Handling?
    case Return => s.consumer.Receiving? && s.channelClosed
  }

  function Apply(s: State, step: Step): State
    requires Enabled(s, step)
  {
    match step
    case SocketMessage => s
    case SocketError => s.(socket := Sending(None))
    case SocketPanic => s.(socket := Leaving)
    case LogLine => s.(logs := Writing)
    case LogError(error) => s.(logs := Sending(Some(error)))
    case LineWritten => s.(logs := Reading)
    case WriteError(error) => s.(logs := Sending(Some(error)))
    case LogPanic => s.(logs := Leaving)
    case SocketSend => s.(socket := Leaving, consumer := Handling, err := s.socket.value)
    case LogSend => s.(logs := Leaving, consumer := Handling, err := s.logs.value)
    case SocketDone => s.(socket := Finished, pending := if s.pending > 0 then s.pending - 1 else 0)
    case LogDone => s.(logs := Finished, pending := if s.pending > 0 then s.pending - 1 else 0)
    case CloseChannel => s.(channelClosed := true, channelCloses := s.channelCloses + 1)
    case Handle =>
      if s.streamsClosed then s.(consumer := Receiving)
      else s.(consumer := Receiving, streamsClosed := true, streamCloses := s.streamCloses + 1)
    case Return => s.(consumer := Returned(s.err))
  }

  ghost predicate CanRun(s: State, run: seq<Step>)
    decreases |run|, 0
  {
    run == [] || (CanRun(s, run[..|run| - 1]) && Enabled(After(s, run[..|run| - 1]), run[|run| - 1]))
  }

  ghost function After(s: State, run: seq<Step>): State
    requires CanRun(s, run)
    decreases |run|, 1
  {
    if run == [] then s else Apply(After(s, run[..|run| - 1]), run[|run| - 1])
  }

  // ---- Invariants ----------------------------------------------------------------------------

  function Unfinished(p: Producer): nat { if p.Finished? then 0 else 1 }

  /** What the consumer has received last in the run, and whether it has received anything. */
  ghost function LastSend(run: seq<Step>): Option<Step> {
    if run == [] then None
    else if run[|run| - 1].SocketSend? || run[|run| - 1].LogSend? then Some(run[|run| - 1])
    else LastSend(run[..|run| - 1])
  }

  /** The error value the log producer offered last. */
  ghost function LogFailure(run: seq<Step>): Error {
    if run == [] then None
    else
      match run[|run| - 1]
      case LogError(error) => Some(error)
      case WriteError(error) => Some(error)
      case _ => LogFailure(run[..|run| - 1])
  }

  /** The wait group counts the producers, and both closings happen once. */
  ghost predicate CountsInv(s: State) {
    && s.pending == Unfinished(s.socket) + Unfinished(s.logs)
    && (s.channelClosed ==> s.pending == 0)
    && s.channelCloses == (if s.channelClosed then 1 else 0)
    && s.streamCloses == (if s.streamsClosed then 1 else 0)
    && (s.consumer.Returned? ==> s.channelClosed && s.consumer.result == s.err)
    && !s.socket.Writing?
    && (s.socket.Sending? ==> s.socket.value == None)
  }

  /** How the state remembers the run. */
  ghost predicate HistoryInv(s: State, failure: Error, last: Option<Step>) {
    && (s.logs.Sending? ==> s.logs.value == failure && failure.Some?)
    && (s.streamsClosed || s.consumer.Handling? <==> last.Some?)
    && (last == Some(LogSend) ==> (s.logs.Leaving? || s.logs.Finished?) && s.err == failure && failure.Some?)
    && (last != Some(LogSend) ==> s.err == None)
  }

  ghost predicate Inv(s: State, run: seq<Step>) {
    CountsInv(s) && HistoryInv(s, LogFailure(run), LastSend(run))
  }

  lemma StepKeepsCounts(s: State, step: Step)
    requires CountsInv(s) && Enabled(s, step)
    ensures CountsInv(Apply(s, step))
  {
  }

  function NextSend(last: Option<Step>, step: Step): Option<Step> {
    if step.SocketSend? || step.LogSend? then Some(step) else last
  }

  function NextFailure(failure: Error, step: Step): Error {
    match step
    case LogError(error) => Some(error)
    case WriteError(error) => Some(error)
    case _ => failure
  }

  lemma StepKeepsHistory(s: State, failure: Error, last: Option<Step>, step: Step)
    requires CountsInv(s) && HistoryInv(s, failure, last) && Enabled(s, step)
    ensures HistoryInv(Apply(s, step), NextFailure(failure, step), NextSend(last, step))
  {
  }

  lemma {:induction false} ReachableInv(run: seq<Step>)
    requires CanRun(INITIAL, run)
    ensures Inv(After(INITIAL, run), run)
    decreases |run|
  {
    if run != [] {
      var before, step := run[..|run| - 1], run[|run| - 1];
      ReachableInv(before);
      StepKeepsCounts(After(INITIAL, before), step);
      StepKeepsHistory(After(INITIAL, before), LogFailure(before), LastSend(before), step);
    }
  }

  /** The close protocol, in every interleaving, panics included: the channel is closed at most once and
      only after both producers have finished, so nobody is sending on it or will; the streams are
      closed at most once. */
  lemma CloseProtocol(run: seq<Step>)
    requires CanRun(INITIAL, run)
    ensures var s := After(INITIAL, run);
            && s.channelCloses <= 1 && s.streamCloses <= 1
            && (s.channelClosed ==> s.channelCloses == 1 && s.socket.Finished? && s.logs.Finished?)
            && (s.consumer.Returned? ==> s.channelClosed)
  {
    ReachableInv(run);
  }

  /** What is returned: the error of the log producer if that was the last value received, and nil
      otherwise.  By then the streams have been closed exactly if some value was received; when both
      producers panic they never are. */
  lemma ReturnsLastError(run: seq<Step>)
    requires CanRun(INITIAL, run) && After(INITIAL, run).consumer.Returned?
    ensures var s := After(INITIAL, run);
            && s.consumer.result == (if LastSend(run) == Some(LogSend) then LogFailure(run) else None)
            && (LastSend(run) == Some(LogSend) ==> s.consumer.result.Some?)
            && s.streamCloses == (if LastSend(run).Some? then 1 else 0)
  {
    ReachableInv(run);
  }

  /** The first value the consumer received. */
  ghost function FirstSend(run: seq<Step>): Option<Step> {
    if run == [] then None
    else if FirstSend(run[..|run| - 1]).Some? then FirstSend(run[..|run| - 1])
    else if run[|run| - 1].SocketSend? || run[|run| - 1].LogSend? then Some(run[|run| - 1])
    else None
  }

  /** Unless it panics the websocket producer leaves by its send; and each producer sends once. */
  ghost predicate SendsInv(s: State, run: seq<Step>) {
    && (s.socket.Leaving? || s.socket.Finished? <==> SocketSend in run)
    && (LogSend in run ==> s.logs.Leaving? || s.logs.Finished?)
    && (FirstSend(run).Some? <==> SocketSend in run || LogSend in run)
    && (FirstSend(run) == Some(LogSend) ==> LogSend in run)
    && (FirstSend(run) == Some(SocketSend) ==> SocketSend in run)
    && (FirstSend(run).Some? ==> FirstSend(run).value.LogSend? || FirstSend(run).value.SocketSend?)
    && (LastSend(run) == Some(LogSend) <==>
          LogSend in run && (FirstSend(run) == Some(SocketSend) || SocketSend !in run))
  }

  lemma {:induction false} ReachableSends(run: seq<Step>)
    requires CanRun(INITIAL, run) && SocketPanic !in run
    ensures SendsInv(After(INITIAL, run), run)
    decreases |run|
  {
    if run != [] {
      var before, step := run[..|run| - 1], run[|run| - 1];
      assert run == before + [step];
      ReachableSends(before);
    }
  }

  /** Which error survives: unless the websocket producer panics, its nil is received as well, so the log
      producer's error is returned exactly if that nil came first.  In the usual order the error comes
      first and closing the streams makes the websocket producer send its nil: then nil is returned. */
  lemma ErrorSurvivesIff(run: seq<Step>)
    requires CanRun(INITIAL, run) && SocketPanic !in run && After(INITIAL, run).consumer.Returned?
    ensures After(INITIAL, run).consumer.result ==
            if FirstSend(run) == Some(SocketSend) && LogSend in run then LogFailure(run) else None
    ensures FirstSend(run) == Some(LogSend) ==> After(INITIAL, run).consumer.result == None
  {
    ReachableInv(run);
    ReachableSends(run);
  }

  lemma Extended(run: seq<Step>, step: Step) returns (longer: seq<Step>)
    requires CanRun(INITIAL, run) && Enabled(After(INITIAL, run), step)
    ensures forall other :: other in longer <==> other in run || other == step
    ensures CanRun(INITIAL, longer) && After(INITIAL, longer) == Apply(After(INITIAL, run), step)
  {
    longer := run + [step];
    assert longer[..|longer| - 1] == run;
  }

  lemma ErrorReceived(error: string) returns (run: seq<Step>)
    ensures CanRun(INITIAL, run) && LogError(error) in run && SocketPanic !in run && LogPanic !in run
    ensures After(INITIAL, run) == State(Reading, Leaving, 2, false, 0, Receiving, Some(error), true, 1)
  {
    assert CanRun(INITIAL, []) && After(INITIAL, []) == INITIAL;
    hide CanRun, After;
    run := Extended([], LogError(error));
    run := Extended(run, LogSend);
    run := Extended(run, Handle);
  }

  lemma NilReceived(error: string) returns (run: seq<Step>)
    ensures CanRun(INITIAL, run) && LogError(error) in run && SocketPanic !in run && LogPanic !in run
    ensures After(INITIAL, run) == State(Leaving, Leaving, 2, false, 0, Receiving, None, true, 1)
  {
    hide CanRun, After;
    run := ErrorReceived(error);
    run := Extended(run, SocketError);
    run := Extended(run, SocketSend);
    run := Extended(run, Handle);
  }

  /** A run in which the log stream fails with an error, nobody panics, and nil is returned. */
  lemma ErrorLost(error: string) returns (run: seq<Step>)
    ensures CanRun(INITIAL, run) && LogError(error) in run && SocketPanic !in run && LogPanic !in run
    ensures After(INITIAL, run).consumer == Returned(None)
  {
    hide CanRun, After;
    run := NilReceived(error);
    run := Extended(run, SocketDone);
    run := Extended(run, LogDone);
    run := Extended(run, CloseChannel);
    run := Extended(run, Return);
  }

  // ---- Termination ---------------------------------------------------------------------------

  /** Passing messages and lines along, which may go on for ever. */
  predicate Streaming(step: Step) { step.SocketMessage? || step.LogLine? || step.LineWritten? }

  function Weight(p: Producer): nat {
    match p
    case Reading => 5
    case Writing => 5
    case Sending(_) => 4
    case Leaving => 1
    case Finished => 0
  }

  /** The other steps still to come are at most this many. */
  function Remaining(s: State): nat {
    Weight(s.socket) + Weight(s.logs) + (if s.channelClosed then 0 else 1) +
    match s.consumer
    case Receiving => 1
    case Handling => 2
    case Returned(_) => 0
  }

  function Counts(step: Step): nat { if Streaming(step) then 0 else 1 }

  /** The streaming steps possible once the streams are closed: one buffered line may still be read. */
  function Buffered(s: State): nat { if s.logs.Reading? then 1 else 0 }

  lemma StepRemaining(s: State, step: Step)
    requires Enabled(s, step)
    ensures Remaining(Apply(s, step)) + Counts(step) <= Remaining(s)
    ensures s.streamsClosed ==>
      Apply(s, step).streamsClosed &&
      Remaining(Apply(s, step)) + Buffered(Apply(s, step)) < Remaining(s) + Buffered(s)
  {
  }

  lemma {:induction false} RunRemaining(s: State, run: seq<Step>)
    requires CanRun(s, run)
    ensures Total(run, Counts) + Remaining(After(s, run)) <= Remaining(s)
    decreases |run|
  {
    if run != [] {
      var before, step := run[..|run| - 1], run[|run| - 1];
      RunRemaining(s, before);
      StepRemaining(After(s, before), step);
      TotalAppend(before, step, Counts);
      assert run == before + [step];
    }
  }

  /** In every run of GetPodLogs there are at most 12 steps other than passing messages and lines on. */
  lemma FewSteps(run: seq<Step>)
    requires CanRun(INITIAL, run)
    ensures Total(run, Counts) + Remaining(After(INITIAL, run)) <= 12
  {
    RunRemaining(INITIAL, run);
  }

  /** After the first value is received the consumer always returns.  Its step of closing the streams
      stays enabled until it is taken, and until then only passing messages and lines along can go on
      for ever; from then on every run, whatever is chosen, makes at most Remaining + 1 steps, and none
      comes to rest before the consumer has returned. */
  lemma {:induction false} ConsumerReturns(run: seq<Step>, more: seq<Step>)
    requires CanRun(INITIAL, run) && LastSend(run).Some?
    requires CanRun(After(INITIAL, run), more)
    ensures var s := After(INITIAL, run);
            var t := After(s, more);
            && (t.streamsClosed || Enabled(t, Handle))
            && Total(more, Counts) + Remaining(t) <= Remaining(s)
            && (s.streamsClosed ==> |more| + Remaining(t) + Buffered(t) <= Remaining(s) + Buffered(s))
            && ((forall step: Step :: !Enabled(t, step)) ==> t.consumer.Returned?)
    decreases |more|
  {
    hide Enabled, CanRun, After, Remaining, CountsInv;
    var s := After(INITIAL, run);
    RunConcat(INITIAL, run, more);
    SomeSendStays(run, more);
    var t := After(s, more);
    ReachableInv(run + more);
    HandlingCanClose(t);
    if forall step: Step :: !Enabled(t, step) {
      NotStuck(t, run + more);
    }
    ClosedRunsDown(s, more);
    RunRemaining(s, more);
  }

  lemma HandlingCanClose(s: State)
    ensures s.consumer.Handling? ==> Enabled(s, Handle)
  {
  }

  lemma {:induction false} SomeSendStays(run: seq<Step>, more: seq<Step>)
    requires LastSend(run).Some?
    ensures LastSend(run + more).Some?
    decreases |more|
  {
    if more == [] {
      assert run + more == run;
    } else {
      var before, whole := more[..|more| - 1], run + more;
      SomeSendStays(run, before);
      assert whole[..|whole| - 1] == run + before;
    }
  }

  /** Streaming can go on for ever while the consumer has not come round to closing the streams. */
  lemma StreamingUntilClosed(s: State)
    requires s.logs.Reading? && !s.streamsClosed
    ensures CanRun(s, [LogLine, LineWritten]) && After(s, [LogLine, LineWritten]) == s
  {
    assert [LogLine, LineWritten][..1] == [LogLine] && [LogLine][..0] == [];
    assert CanRun(s, []) && CanRun(s, [LogLine]);
  }

  lemma NotStuck(t: State, run: seq<Step>)
    requires Inv(t, run) && forall step: Step :: !Enabled(t, step)
    ensures t.consumer.Returned?
  {
    assert !Enabled(t, Handle) && !Enabled(t, SocketDone) && !Enabled(t, LogDone) && !Enabled(t, SocketError);
    assert !Enabled(t, LogLine) && !Enabled(t, LogPanic) && !Enabled(t, SocketSend) && !Enabled(t, LogSend);
    assert !Enabled(t, CloseChannel) && !Enabled(t, Return);
  }

  lemma {:induction false} ClosedRunsDown(s: State, more: seq<Step>)
    requires CanRun(s, more)
    ensures s.streamsClosed ==>
      After(s, more).streamsClosed &&
      |more| + Remaining(After(s, more)) + Buffered(After(s, more)) <= Remaining(s) + Buffered(s)
    decreases |more|
  {
    if more != [] {
      var before := more[..|more| - 1];
      ClosedRunsDown(s, before);
      StepRemaining(After(s, before), more[|more| - 1]);
    }
  }

  lemma {:induction false} RunConcat(s: State, run: seq<Step>, more: seq<Step>)
    requires CanRun(s, run) && CanRun(After(s, run), more)
    ensures CanRun(s, run + more) && After(s, run + more) == After(After(s, run), more)
    decreases |more|
  {
    hide Apply, Enabled;
    if more == [] {
      assert run + more == run;
    } else {
      var before, whole := more[..|more| - 1], run + more;
      RunConcat(s, run, before);
      assert whole[..|whole| - 1] == run + before && whole[|whole| - 1] == more[|more| - 1];
    }
  }
}
