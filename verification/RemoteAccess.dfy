/**
 The remote-access lifecycle (internal/remoteaccess/manager.go) as the critical sections of its mutex, run in any
 interleaving. Goroutines and calls in progress are rows of two tables; a context or channel is named by the worker
 it was made for.
 */
module RemoteAccess {
  import opened Wrappers

  datatype Mode = DisabledMode | PrivateMode | FunnelMode

  datatype Phase = Disabled | Starting | Connecting | AuthRequired | Publishing | Online | Stopping | Error

  datatype Config = Config(mode: Mode, hostname: string)

  datatype Status = Status(desired: Mode, phase: Phase, hostname: string)

  /** Where a reconcile goroutine is. Its body runs from `Fresh` to `Leaving`. */
  datatype Stage =
    | Waiting                       // for the previous worker's channel
    | Fresh                         // about to read the desired configuration
    | Disabling                     // about to stop the node
    | Ensuring                      // about to take or create the node
    | StartingNode(node: nat)       // node.Start in progress
    | Discarding(node: nat)         // the node did not start
    | Working                       // publishing states until it has nothing more to do
    | Leaving                       // body left, deferred clearing still to come
    | Cleared                       // cleared, channel still open
    | Closed                        // channel closed

  predicate InBody(s: Stage) { !s.Waiting? && !Over(s) }

  predicate Over(s: Stage) { s.Cleared? || s.Closed? }

  /** `disabling` says that the worker was begun to switch remote access off. */
  datatype Worker = Worker(
    previous: Option<nat>, disabling: bool, stage: Stage, config: Option<Config>, published: bool, cancelled: bool)

  /** An API call between two of its critical sections. */
  datatype Call =
    | Saving(config: Config, same: bool)
    | Beginning(disabling: bool)
    | AwaitingDone(done: Option<nat>)
    | StoppingNode
    | ShutDown                      // Shutdown returned nil
    | Finished

  datatype Choice =
    | DoConfigure(config: Config) | DoStart | DoRetry | DoShutdown | Cancel(context: nat)
    | Advance(call: nat, ok: bool)
    | Work(worker: nat, ok: bool, phase: Option<Phase>)

  function WithCancelled(workers: seq<Worker>, context: Option<nat>): seq<Worker>
    requires context.Some? ==> context.value < |workers|
  {
    if context.Some? then workers[context.value := workers[context.value].(cancelled := true)] else workers
  }

  /** What a worker goes on to do with the configuration it has read. */
  function FirstStage(config: Config): Stage { if config.mode.DisabledMode? then Disabling else Ensuring }

  /** What the status says while a new worker waits for its turn. */
  function BeginningStatus(disabling: bool, desired: Config): Status {
    if disabling then Status(DisabledMode, Stopping, desired.hostname)
    else Status(desired.mode, Starting, desired.hostname)
  }

  class Manager {
    var desired: Config
    var status: Status
    var generation: nat
    var cancel: Option<nat>
    var done: Option<nat>
    var node: Option<nat>
    var nodeHost: string
    var nodeStarted: bool
    var closed: bool
    var workers: seq<Worker>
    var calls: seq<Call>
    var nodesMade: nat

    constructor (config: Config, failed: bool)
      ensures desired == config && status.desired == config.mode && generation == 0 && !closed && workers == []
              && calls == []
      ensures Inv()
    {
      desired, status := config, Status(config.mode, if failed then Error else Disabled, config.hostname);
      generation, cancel, done, node, nodeHost, nodeStarted, closed := 0, None, None, None, "", false, false;
      workers, calls, nodesMade := [], [], 0;
    }

    // -------------------------------------------------------------- the invariant

    /** Each worker waits for the one before it, unless that one was already over when it began. */
    ghost predicate Chained()
      reads this`workers
    {
      forall i :: 0 < i < |workers| ==>
        && (workers[i].previous == Some(i - 1) || (workers[i].previous == None && Over(workers[i - 1].stage)))
        && (!workers[i].stage.Waiting? ==> Over(workers[i - 1].stage))
    }

    /** The manager's channel is that of its latest worker until that worker has cleared it. */
    ghost predicate Tracked()
      reads this`workers, this`generation, this`done, this`cancel
    {
      && generation == |workers| && cancel == done
      && done == if generation > 0 && !Over(workers[generation - 1].stage) then Some(generation - 1) else None
    }

    /** A configuration call that has set the desired mode and has yet to begin a worker for it. */
    predicate Pending()
      reads this`calls
    {
      exists i :: 0 <= i < |calls| && calls[i].Beginning?
    }

    /** The latest worker works for the desired configuration, and its status says so once it has published. */
    ghost predicate Current()
      reads this`workers, this`generation, this`desired, this`status, this`closed, this`calls
    {
      && generation == |workers|
      && (generation == 0 ==> status.desired == desired.mode || Pending() || closed)
      && (generation > 0 ==>
            var w := workers[generation - 1];
            && (w.config.Some? ==> w.config.value == desired || Pending() || closed)
            && (w.published ==> w.config.Some? && status.desired == w.config.value.mode)
            && (!w.published ==>
                  if w.disabling then status.desired == DisabledMode
                  else status.desired == desired.mode || Pending() || closed)
            && (w.stage.Leaving? || Over(w.stage) ==> w.cancelled || w.published))
    }

    /** A worker knows its configuration exactly from the moment it has read it. */
    ghost predicate Informed()
      reads this`workers
    {
      forall i :: 0 <= i < |workers| ==>
        (workers[i].config.None? <==> workers[i].stage.Waiting? || workers[i].stage.Fresh?)
    }

    /** Once a Shutdown has its channel closed, nothing runs that could bring a node back. */
    ghost predicate Quiet()
      reads this`workers, this`closed, this`calls, this`node, this`generation
    {
      && generation == |workers|
      && (forall i :: 0 <= i < |calls| && (calls[i].AwaitingDone? || calls[i].StoppingNode? || calls[i].ShutDown?) ==>
            closed)
      && (forall i :: 0 <= i < |calls| && calls[i].AwaitingDone? ==>
            if calls[i].done.Some? then calls[i].done.value + 1 == |workers| else Settled())
      && (forall i :: 0 <= i < |calls| && (calls[i].StoppingNode? || calls[i].ShutDown?) ==> Settled())
      && (forall i :: 0 <= i < |calls| && calls[i].ShutDown? ==> node.None?)
    }

    /** The latest worker is over. */
    predicate Settled()
      reads this`workers
    {
      |workers| > 0 ==> Over(workers[|workers| - 1].stage)
    }

    ghost predicate Inv()
      reads this`desired, this`status, this`generation, this`cancel, this`done, this`node, this`closed, this`workers,
            this`calls
    {
      Chained() && Tracked() && Informed() && Current() && Quiet()
    }
  
    // -------------------------------------------------------------- API calls

    /** The status says that no lifecycle is under way: it is switched off, or has failed. */
    predicate Idle()
      reads this`status
    {
      status.phase.Error? || status.phase.Disabled?
    }

    /** Configure up to its first unlock. */
    method Configure(config: Config)
      requires Inv()
      modifies this`calls
      ensures Inv()
      ensures calls == old(calls) + [if closed then Finished else Saving(config, desired == config && !Idle())]
    {
      var same := desired == config && !Idle();
      AddCall(if closed then Finished else Saving(config, same));
    }

    method AddCall(c: Call)
      requires Inv() && !c.AwaitingDone? && !c.StoppingNode? && !c.ShutDown?
      modifies this`calls
      ensures Inv() && calls == old(calls) + [c]
    {
      if Pending() {
        var i :| 0 <= i < |calls| && calls[i].Beginning?;
        assert (calls + [c])[i].Beginning?;
      }
      calls := calls + [c];
    }

    /** Configure's second critical section, after the settings were saved (or not). */
    method SetDesired(i: nat, saved: bool)
      requires Inv() && i < |calls| && calls[i].Saving?
      modifies this`calls, this`desired
      ensures Inv()
      ensures var config := old(calls)[i].config;
              if !saved || closed || (old(calls)[i].same && old(desired) == config)
              then desired == old(desired) && calls == old(calls)[i := Finished]
              else desired == config && calls == old(calls)[i := Beginning(config.mode.DisabledMode?)]
    {
      var config := calls[i].config;
      if !saved || closed || (calls[i].same && desired == config) {
        SetCall(i, Finished);
        return;
      }
      desired := config;
      calls := calls[i := Beginning(config.mode.DisabledMode?)];
      assert calls[i].Beginning?;
    }

    method SetCall(i: nat, c: Call)
      requires Inv() && i < |calls| && !calls[i].Beginning?
      requires !c.AwaitingDone? && !c.StoppingNode? && !c.ShutDown?
      modifies this`calls
      ensures Inv() && calls == old(calls)[i := c]
    {
      if Pending() {
        var j :| 0 <= j < |calls| && calls[j].Beginning?;
        assert calls[i := c][j].Beginning?;
      }
      calls := calls[i := c];
    }

    /** Start, and Retry when there is something to retry. */
    method Retry()
      requires Inv()
      modifies this`calls
      ensures Inv()
      ensures var refused := closed || desired.mode.DisabledMode? || !Idle();
              calls == old(calls) + [if refused then Finished else Beginning(false)]
    {
      AddCall(if closed || desired.mode.DisabledMode? || !Idle() then Finished else Beginning(false));
    }

    /** Start: begins a worker for a persisted configuration that is enabled. */
    method Start()
      requires Inv()
      modifies this`calls
      ensures Inv() && calls == old(calls) + [if desired.mode.DisabledMode? then Finished else Beginning(false)]
    {
      AddCall(if desired.mode.DisabledMode? then Finished else Beginning(false));
    }

    /** begin: cancels the previous worker and starts the next one, unless the manager is closed. */
    method Begin(i: nat)
      requires Inv() && i < |calls| && calls[i].Beginning?
      modifies this`calls, this`workers, this`generation, this`cancel, this`done, this`status
      ensures Inv() && calls == old(calls)[i := Finished]
      ensures closed ==> generation == old(generation) && workers == old(workers) && status == old(status)
      ensures !closed ==>
                var disabling := old(calls)[i].disabling;
                && workers == WithCancelled(old(workers), old(cancel))
                   + [Worker(old(done), disabling, Waiting, None, false, false)]
                && generation == old(generation) + 1 && status == BeginningStatus(disabling, desired)
    {
      var disabling := calls[i].disabling;
      if !closed {
        CancelLatest();
        AddWorker(disabling);
      }
      calls := calls[i := Finished];
    }

    /** Cancels the worker whose context the manager still holds. */
    method CancelLatest()
      requires Inv()
      modifies this`workers
      ensures Inv() && workers == WithCancelled(old(workers), cancel)
    {
      if cancel.Some? {
        workers := workers[cancel.value := workers[cancel.value].(cancelled := true)];
      }
    }

    /** The next generation, its channel and its context. */
    method AddWorker(disabling: bool)
      requires Inv() && !closed
      modifies this`workers, this`generation, this`cancel, this`done, this`status
      ensures Inv() && workers == old(workers) + [Worker(old(done), disabling, Waiting, None, false, false)]
      ensures generation == old(generation) + 1 && status == BeginningStatus(disabling, desired)
    {
      workers := workers + [Worker(done, disabling, Waiting, None, false, false)];
      generation := generation + 1;
      cancel, done := Some(generation - 1), Some(generation - 1);
      status := BeginningStatus(disabling, desired);
    }

    // -------------------------------------------------------------- Shutdown

    method Shutdown()
      requires Inv()
      modifies this`closed, this`workers, this`calls
      ensures Inv() && closed && calls == old(calls) + [AwaitingDone(done)]
      ensures workers == if old(closed) then old(workers) else WithCancelled(old(workers), cancel)
    {
      if !closed { CancelLatest(); }
      closed := true;
      calls := calls + [AwaitingDone(done)];
    }

    /** The channel is closed, or there was none to wait for. */
    method DoneClosed(i: nat)
      requires Inv() && i < |calls| && calls[i].AwaitingDone?
      requires calls[i].done.Some? ==> calls[i].done.value < |workers| && workers[calls[i].done.value].stage.Closed?
      modifies this`calls
      ensures Inv() && calls == old(calls)[i := StoppingNode]
    {
      calls := calls[i := StoppingNode];
    }

    method GiveUp(i: nat)
      requires Inv() && i < |calls| && calls[i].AwaitingDone?
      modifies this`calls
      ensures Inv() && calls == old(calls)[i := Finished]
    {
      SetCall(i, Finished);
    }

    method StopNodeAndReturn(i: nat)
      requires Inv() && i < |calls| && calls[i].StoppingNode?
      modifies this`calls, this`node, this`nodeHost, this`nodeStarted
      ensures Inv() && node.None? && calls == old(calls)[i := ShutDown]
    {
      node, nodeHost, nodeStarted := None, "", false;
      calls := calls[i := ShutDown];
    }

    // -------------------------------------------------------------- a reconcile goroutine

    /** The context a worker was started under ends from outside. */
    method ParentCancelled(g: nat)
      requires Inv() && g < |workers|
      modifies this`workers
      ensures Inv() && workers == old(workers)[g := old(workers)[g].(cancelled := true)]
    {
      workers := workers[g := workers[g].(cancelled := true)];
    }

    /** Moves a worker on within its body without touching anything else it has learnt. */
    method MoveTo(g: nat, stage: Stage)
      requires Inv() && g < |workers| && InBody(workers[g].stage) && !workers[g].stage.Fresh?
      requires InBody(stage) && !stage.Fresh? && (stage.Leaving? ==> workers[g].cancelled || workers[g].published)
      modifies this`workers
      ensures Inv() && workers == old(workers)[g := old(workers)[g].(stage := stage)]
    {
      workers := workers[g := workers[g].(stage := stage)];
    }

    /** The previous worker's channel is closed, or there was none. */
    method Enter(g: nat)
      requires Inv() && g < |workers| && workers[g].stage.Waiting?
      requires workers[g].previous.Some? ==>
                 workers[g].previous.value < |workers| && workers[workers[g].previous.value].stage.Closed?
      modifies this`workers
      ensures Inv() && workers == old(workers)[g := old(workers)[g].(stage := Fresh)]
    {
      workers := workers[g := workers[g].(stage := Fresh)];
    }

    method ReadDesired(g: nat)
      requires Inv() && g < |workers| && workers[g].stage.Fresh?
      modifies this`workers
      ensures Inv()
      ensures workers == old(workers)[g := old(workers)[g].(stage := FirstStage(desired), config := Some(desired))]
    {
      workers := workers[g := workers[g].(stage := FirstStage(desired), config := Some(desired))];
    }
  
    /** Workers before one that has entered are over. */
    lemma {:induction false} EarlierOver(g: nat, i: nat)
      requires Chained() && g < i < |workers| && !workers[i].stage.Waiting?
      ensures Over(workers[g].stage)
      decreases i
    {
      if g < i - 1 { EarlierOver(g, i - 1); }
    }

    /** At most one reconcile body runs. */
    lemma OneBody(g: nat, h: nat)
      requires Inv() && g < |workers| && h < |workers| && InBody(workers[g].stage) && InBody(workers[h].stage)
      ensures g == h
    {
      if g < h { EarlierOver(g, h); }
      if h < g { EarlierOver(h, g); }
    }

    /** A body in progress means that no Shutdown has seen the end of the workers. */
    lemma BodyMeansNotSettled(g: nat)
      requires Inv() && g < |workers| && InBody(workers[g].stage)
      ensures !Settled()
      ensures forall i :: 0 <= i < |calls| ==> !calls[i].ShutDown? && !calls[i].StoppingNode?
    {
      var last := |workers| - 1;
      if Over(workers[last].stage) && g < last { EarlierOver(g, last); }
    }

    /** stopNode of a worker whose configuration is disabled. */
    method DisableNode(g: nat)
      requires Inv() && g < |workers| && workers[g].stage.Disabling?
      modifies this`workers, this`node, this`nodeHost, this`nodeStarted
      ensures Inv() && node.None? && workers == old(workers)[g := old(workers)[g].(stage := Working)]
    {
      node, nodeHost, nodeStarted := None, "", false;
      MoveTo(g, Working);
    }

    /** The node fields in the critical section of ensureNode. */
    method TakeNode(g: nat, host: string, factoryWorks: bool) returns (started: bool)
      requires Inv() && g < |workers| && InBody(workers[g].stage)
      modifies this`node, this`nodeHost, this`nodeStarted, this`nodesMade
      ensures Inv() && (node.Some? ==> nodeHost == host && nodeStarted)
      ensures started <==> old(node).Some? && old(nodeHost) == host && old(nodeStarted)
      ensures if old(node).Some? && old(nodeHost) == host then node == old(node) else node.Some? == factoryWorks
    {
      hide Chained, Tracked, Current, Informed, Settled;
      BodyMeansNotSettled(g);
      if node.Some? && nodeHost != host {
        node, nodeHost, nodeStarted := None, "", false;
      }
      started := nodeStarted && node.Some?;
      if node.None? && factoryWorks {
        node, nodeHost, nodesMade := Some(nodesMade), host, nodesMade + 1;
      }
      if node.Some? { nodeStarted := true; }
    }

    /** ensureNode: a node for the configured host name, which this worker has to start unless it was running. */
    method EnsureNode(g: nat, factoryWorks: bool)
      requires Inv() && g < |workers| && workers[g].stage.Ensuring?
      modifies this`workers, this`node, this`nodeHost, this`nodeStarted, this`nodesMade
      ensures Inv() && |workers| == |old(workers)| && old(workers)[g].config.Some?
      ensures node.Some? ==> nodeHost == old(workers)[g].config.value.hostname && nodeStarted
      ensures workers[g].stage.Working? || (workers[g].stage.StartingNode? && node == Some(workers[g].stage.node))
    {
      var started := TakeNode(g, workers[g].config.value.hostname, factoryWorks);
      hide Inv;
      MoveTo(g, if node.None? || started then Working else StartingNode(node.value));
    }

    method NodeStarted(g: nat, ok: bool)
      requires Inv() && g < |workers| && workers[g].stage.StartingNode?
      modifies this`workers
      ensures Inv()
      ensures workers == old(workers)[g := old(workers)[g].(
                stage := if ok then Working else Discarding(old(workers)[g].stage.node))]
    {
      MoveTo(g, if ok then Working else Discarding(workers[g].stage.node));
    }

    method DiscardNode(g: nat)
      requires Inv() && g < |workers| && workers[g].stage.Discarding?
      modifies this`workers, this`node, this`nodeHost, this`nodeStarted
      ensures Inv() && node != Some(old(workers)[g].stage.node)
      ensures workers == old(workers)[g := old(workers)[g].(stage := Working)]
    {
      if node == Some(workers[g].stage.node) {
        node, nodeHost, nodeStarted := None, "", false;
      }
      MoveTo(g, Working);
    }

    /** publish: only the current generation's status is kept. */
    method Publish(g: nat, phase: Phase)
      requires Inv() && g < |workers| && workers[g].stage.Working?
      modifies this`workers, this`status
      ensures Inv() && old(workers)[g].config.Some?
      ensures var config := old(workers)[g].config.value;
              status == if generation == g + 1 then Status(config.mode, phase, config.hostname) else old(status)
      ensures workers == old(workers)[g := old(workers)[g].(published := true)]
    {
      var config := workers[g].config.value;
      if generation == g + 1 {
        status := Status(config.mode, phase, config.hostname);
      }
      workers := workers[g := workers[g].(published := true)];
    }

    /** The body returns: its context was cancelled, or it has published what it came to. */
    method Leave(g: nat)
      requires Inv() && g < |workers| && workers[g].stage.Working? && (workers[g].cancelled || workers[g].published)
      modifies this`workers
      ensures Inv() && workers == old(workers)[g := old(workers)[g].(stage := Leaving)]
    {
      MoveTo(g, Leaving);
    }

    /** The first deferred function: the current worker clears the manager's channel and context. */
    method Clear(g: nat)
      requires Inv() && g < |workers| && workers[g].stage.Leaving?
      modifies this`workers, this`cancel, this`done
      ensures Inv() && workers == old(workers)[g := old(workers)[g].(stage := Cleared)]
    {
      if generation == g + 1 {
        cancel, done := None, None;
      }
      workers := workers[g := workers[g].(stage := Cleared)];
    }

    method CloseDone(g: nat)
      requires Inv() && g < |workers| && workers[g].stage.Cleared?
      modifies this`workers
      ensures Inv() && workers == old(workers)[g := old(workers)[g].(stage := Closed)]
    {
      workers := workers[g := workers[g].(stage := Closed)];
    }

    // -------------------------------------------------------------- every interleaving

    /** One more critical section of a call in progress, if it can go on. */
    method AdvanceCall(i: nat, ok: bool)
      requires Inv() && i < |calls|
      modifies this`calls, this`workers, this`generation, this`cancel, this`done, this`status, this`desired, this`node,
               this`nodeHost, this`nodeStarted
      ensures Inv() && |calls| == |old(calls)| && ReturnsStay(old(calls), calls)
      ensures status == old(status) || generation == old(generation) + 1
      ensures closed ==> generation == old(generation) && |workers| == |old(workers)| && desired == old(desired)
    {
      hide Inv;
      match calls[i]
      case Saving(_, _) => SetDesired(i, ok);
      case Beginning(_) => Begin(i);
      case AwaitingDone(d) =>
        if !ok {
          GiveUp(i);
        } else if d.None? || (d.value < |workers| && workers[d.value].stage.Closed?) {
          DoneClosed(i);
        }
      case StoppingNode => StopNodeAndReturn(i);
      case ShutDown =>
      case Finished =>
    }

    /** One more step of a worker, if it can go on. */
    method AdvanceWorker(g: nat, ok: bool, phase: Option<Phase>)
      requires Inv() && g < |workers|
      modifies this`workers, this`cancel, this`done, this`status, this`node, this`nodeHost, this`nodeStarted,
               this`nodesMade
      ensures Inv()
      ensures status == old(status) || generation == g + 1
      ensures Over(old(workers)[g].stage) ==> nodesMade == old(nodesMade)
    {
      hide Inv;
      match workers[g].stage
      case Waiting =>
        var p := workers[g].previous;
        if p.None? || (p.value < |workers| && workers[p.value].stage.Closed?) { Enter(g); }
      case Fresh => ReadDesired(g);
      case Disabling => DisableNode(g);
      case Ensuring => EnsureNode(g, ok);
      case StartingNode(_) => NodeStarted(g, ok);
      case Discarding(_) => DiscardNode(g);
      case Working =>
        if phase.Some? {
          Publish(g, phase.value);
        } else if workers[g].cancelled || workers[g].published {
          Leave(g);
        }
      case Leaving => Clear(g);
      case Cleared => CloseDone(g);
      case Closed =>
    }

    /** A call to Shutdown that has returned nil stays that way. */
    ghost predicate ReturnsStay(before: seq<Call>, after: seq<Call>) {
      |before| <= |after| && forall k :: 0 <= k < |before| && before[k].ShutDown? ==> after[k].ShutDown?
    }

    /**
     Any schedule of new calls, calls in progress and workers. A closed manager begins no worker and keeps its
     configuration; after a Shutdown that returned nil there is never a node or a running worker again.
     */
    method Run(schedule: seq<Choice>)
      requires Inv()
      modifies this
      ensures Inv() && ReturnsStay(old(calls), calls)
      ensures old(closed) ==> closed && generation == old(generation) && desired == old(desired)
      ensures old(ShutDownReturned()) ==>
                ShutDownReturned() && node.None? && nodesMade == old(nodesMade)
                && forall w :: w in workers ==> Over(w.stage)
    {
      hide Inv;
      ghost var after := ShutDownReturned();
      for n := 0 to |schedule|
        invariant Inv() && ReturnsStay(old(calls), calls)
        invariant old(closed) ==> closed && generation == old(generation) && desired == old(desired)
        invariant after ==> ShutDownReturned() && nodesMade == old(nodesMade)
      {
        if ShutDownReturned() { ShutDownIsFinal(); }
        match schedule[n]
        case DoConfigure(config) => Configure(config);
        case DoStart => Start();
        case DoRetry => Retry();
        case Cancel(g) => if g < |workers| { ParentCancelled(g); }
        case DoShutdown => Shutdown();
        case Advance(i, ok) => if i < |calls| { AdvanceCall(i, ok); }
        case Work(g, ok, phase) => if g < |workers| { AdvanceWorker(g, ok, phase); }
      }
      if ShutDownReturned() { ShutDownIsFinal(); }
    }

    // -------------------------------------------------------------- what the protocol guarantees

    /** Some call to Shutdown has returned nil. */
    predicate ShutDownReturned()
      reads this`calls
    {
      exists i :: 0 <= i < |calls| && calls[i].ShutDown?
    }

    /**
     When every configuration call has begun its worker and nothing was shut down, the status names the mode that
     was configured last, unless the latest worker was begun to switch remote access off, finds that another mode
     has been configured since, and has not published yet.
     */
    lemma SettledStatusIsDesired()
      requires Inv() && !Pending() && !closed
      ensures status.desired == desired.mode <==>
                |workers| == 0 || workers[|workers| - 1].published || !workers[|workers| - 1].disabling
                || desired.mode.DisabledMode?
      ensures Settled() && (|workers| > 0 ==> !workers[|workers| - 1].cancelled) ==> status.desired == desired.mode
    {}

    /** Once Shutdown has returned nil, there is no node, and every worker is over. */
    lemma ShutDownIsFinal()
      requires Inv() && ShutDownReturned()
      ensures closed && node.None? && forall w :: w in workers ==> Over(w.stage)
    {
      forall g | 0 <= g < |workers| ensures Over(workers[g].stage) {
        if g < |workers| - 1 { EarlierOver(g, |workers| - 1); }
      }
    }
  }

  /** The exception is real: a call that disables, overtaken by one that enables, leaves the status behind. */
  method OvertakenDisable(hostname: string) returns (m: Manager)
    ensures m.Inv() && !m.Pending() && !m.closed && m.desired.mode.FunnelMode? && m.status.desired.DisabledMode?
  {
    m := new Manager(Config(PrivateMode, hostname), false);
    m.Configure(Config(DisabledMode, hostname));
    m.Configure(Config(FunnelMode, hostname));
    m.SetDesired(0, true);
    m.SetDesired(1, true);
    m.Begin(1);
    m.Begin(0);
  }
}
