/**
  * The configmap watcher: it looks the configmap up, opens a Kubernetes watch
  * on it, and runs the command for every event of that watch except `Added`,
  * until the watch's channel closes or `Close` sends on `done`.
  */
module ConfigmapWatching {
  import opened Wrappers
  import opened Startup
  import opened Watching
  import opened StreamWatching

  class ConfigmapWatcher {
    const namespace: string
    const name: string
    const runner: Runner
    /** `cmw.w` has been set by a successful `watch`. */
    var hasStream: bool
    /** `Stop` has been called on the watch. */
    var streamStopped: bool
    /** The loop goroutine has been started and has not returned. */
    var running: bool
    /** `Close` has sent on `done`. */
    var doneSignalled: bool
    /** `Run` calls so far, and the log written so far. */
    var runs: nat
    var log: seq<LogEntry>

    /** The struct literal: `configmap` read as `namespace/name`, a fresh `done` channel. */
    constructor (configmap: string, runner: Runner)
      ensures (namespace, name) == ParseNamespaceName(configmap) && this.runner == runner
      ensures !hasStream && !streamStopped && !running && !doneSignalled
      ensures runs == 0 && log == []
    {
      var r := ParseNamespaceName(configmap);
      namespace, name := r.0, r.1;
      this.runner := runner;
      hasStream, streamStopped, running, doneSignalled := false, false, false, false;
      runs, log := 0, [];
    }

    /**
      * `watch`: the configmap lookup (failing with `getErr`), then the watch
      * (failing with `watchErr`); only when both succeed is the stream kept and
      * the loop started.
      */
    method Watch(getErr: Option<string>, watchErr: Option<string>) returns (err: Option<string>)
      requires !hasStream && !running
      modifies this`hasStream, this`running
      ensures err == if getErr.Some? then getErr else watchErr
      ensures hasStream == running == (getErr.None? && watchErr.None?)
    {
      if getErr.Some? {
        return getErr;
      }
      if watchErr.Some? {
        return watchErr;
      }
      hasStream := true;
      running := true;
      err := None;
    }

    /** `OnEvent`: log the detection, run the command once, log what it returned. */
    method OnEvent()
      modifies this`runs, this`log
      ensures runs == old(runs) + 1
      ensures log == old(log) + [Detected(ConfigMapChange(namespace, name))] + ReactionLog(runner(old(runs)))
    {
      log := log + [Detected(ConfigMapChange(namespace, name))];
      var result := runner(runs);
      runs := runs + 1;
      if result.err.Some? {
        log := log + [CommandError(result.err.value)];
      }
      if |result.stdout| > 0 {
        log := log + [CommandOutput(result.stdout)];
      }
      if |result.stderr| > 0 {
        log := log + [CommandStderr(result.stderr)];
      }
    }

    /**
      * `Close`: send on the buffered `done`, then stop the watch, then return
      * nil. Without a watch (`watch` failed) the stop is a nil dereference,
      * after `done` has already been sent.
      */
    method Close() returns (outcome: CloseOutcome)
      modifies this`doneSignalled, this`streamStopped
      ensures doneSignalled
      ensures streamStopped == (old(streamStopped) || hasStream)
      ensures outcome == if hasStream then Closed(None) else NilPanic
    {
      doneSignalled := true;
      if !hasStream {
        return NilPanic;
      }
      streamStopped := true;
      outcome := Closed(None);
    }

    /**
      * One turn of the loop's `select`: an event other than `Added` runs
      * `OnEvent`, a closed channel returns silently, `done` is logged and returns.
      */
    method Receive(item: StreamItem)
      requires running
      requires item == DoneSignal ==> doneSignalled
      modifies this`runs, this`log, this`running
      ensures log == old(log) + StepLog(ConfigMapChange(namespace, name), runner, old(runs), StreamAction(item, true))
      ensures runs == old(runs) + (if StreamAction(item, true).React? then 1 else 0)
      ensures running <==> !StreamAction(item, true).Stop?
    {
      match item {
        case Delivered(t) =>
          if t != Added {
            OnEvent();
          }
        case StreamClosed =>
          running := false;
        case DoneSignal =>
          log := log + [WatcherDone(ConfigMapChange(namespace, name))];
          running := false;
      }
    }

    /**
      * The loop goroutine, receiving `items` in order until it returns. A
      * `done` item can only be received once `Close` has sent it.
      */
    method Loop(items: seq<StreamItem>)
      requires running
      requires doneSignalled || DoneSignal !in items
      modifies this`runs, this`log, this`running
      ensures log == old(log) + Trace(ConfigMapChange(namespace, name), runner, old(runs), StreamActions(items, true))
      ensures runs == old(runs) + Reactions(StreamActions(items, true))
      ensures running <==> !Returns(items, true)
    {
      var i := 0;
      ghost var acts: seq<Action> := [];
      while i < |items| && running
        invariant 0 <= i <= |items|
        invariant acts == StreamActions(items[..i], true)
        invariant log == old(log) + Trace(ConfigMapChange(namespace, name), runner, old(runs), acts)
        invariant runs == old(runs) + Reactions(acts)
        invariant running <==> !HasStop(acts)
        decreases |items| - i
      {
        ghost var a := StreamAction(items[i], true);
        ghost var before, runsBefore := log, runs;
        StreamActionsPrefix(items, i, true);
        Receive(items[i]);
        LoopTurn(ConfigMapChange(namespace, name), runner, old(runs), acts, a, old(log), before, log, runsBefore);
        acts := acts + [a];
        i := i + 1;
      }
      StreamLoopExit(ConfigMapChange(namespace, name), runner, old(runs), items, i, true);
    }

    /**
      * `NewConfigmapWatcher`: build the watcher and start watching; the error
      * of `watch` is dropped, so a watcher comes back whether or not it watches.
      */
    static method NewConfigmapWatcher(configmap: string, runner: Runner, getErr: Option<string>, watchErr: Option<string>)
      returns (w: ConfigmapWatcher)
      ensures fresh(w)
      ensures (w.namespace, w.name) == ParseNamespaceName(configmap) && w.runner == runner
      ensures w.runs == 0 && w.log == [] && !w.doneSignalled && !w.streamStopped
      ensures w.hasStream == w.running == (getErr.None? && watchErr.None?)
    {
      w := new ConfigmapWatcher(configmap, runner);
      var _ := w.Watch(getErr, watchErr);
    }
  }
}
