/**
  * The secret watcher: it looks the secret up, opens a Kubernetes watch on it,
  * and runs the command for every event of that watch except `Added`, until
  * the watch's channel closes. Its loop never receives from `done`.
  */
module SecretWatching {
  import opened Wrappers
  import opened Startup
  import opened Watching
  import opened StreamWatching

  class SecretWatcher {
    const namespace: string
    const name: string
    const runner: Runner
    /** `cmw.w` has been set by a successful `watch`. */
    var hasStream: bool
    /** `Stop` has been called on the watch. */
    var streamStopped: bool
    /** The loop goroutine has been started and has not returned. */
    var running: bool
    /** `Run` calls so far, and the log written so far. */
    var runs: nat
    var log: seq<LogEntry>

    /**
      * The struct literal: `secret` read as `namespace/name`; the `done`
      * channel `main` hands over is kept but never read, so it is not modelled.
      */
    constructor (secret: string, runner: Runner)
      ensures (namespace, name) == ParseNamespaceName(secret) && this.runner == runner
      ensures !hasStream && !streamStopped && !running
      ensures runs == 0 && log == []
    {
      var r := ParseNamespaceName(secret);
      namespace, name := r.0, r.1;
      this.runner := runner;
      hasStream, streamStopped, running := false, false, false;
      runs, log := 0, [];
    }

    /**
      * `watch`: the secret lookup (failing with `getErr`), then the watch
      * (failing with `watchErr`); only when both succeed is the stream kept and
      * the loop started.
      */
    method Watch(getErr: Option<string>, watchErr: Option<string>) returns (err: Option<string>)
      requires !hasStream && !running
      modifies this`hasStream, this`running
      ensures err == if getErr.Some? then getErr else watchErr
      ensures hasStream == running == (getErr.None? && watchErr.None?)
    {
      if getErr.Some? {
        return getErr;
      }
      if watchErr.Some? {
        return watchErr;
      }
      hasStream := true;
      running := true;
      err := None;
    }

    /** `OnEvent`: log the detection, run the command once, log what it returned. */
    method OnEvent()
      modifies this`runs, this`log
      ensures runs == old(runs) + 1
      ensures log == old(log) + [Detected(SecretChange(namespace, name))] + ReactionLog(runner(old(runs)))
    {
      log := log + [Detected(SecretChange(namespace, name))];
      var result := runner(runs);
      runs := runs + 1;
      if result.err.Some? {
        log := log + [CommandError(result.err.value)];
      }
      if |result.stdout| > 0 {
        log := log + [CommandOutput(result.stdout)];
      }
      if |result.stderr| > 0 {
        log := log + [CommandStderr(result.stderr)];
      }
    }

    /**
      * `Close`: stop the watch and return nil; nothing is sent to the loop.
      * Without a watch (`watch` failed) the stop is a nil dereference.
      */
    method Close() returns (outcome: CloseOutcome)
      modifies this`streamStopped
      ensures streamStopped == (old(streamStopped) || hasStream)
      ensures outcome == if hasStream then Closed(None) else NilPanic
    {
      if !hasStream {
        return NilPanic;
      }
      streamStopped := true;
      outcome := Closed(None);
    }

    /**
      * One turn of the loop's `select`, whose only case is the result
      * channel: an event other than `Added` runs `OnEvent`, a closed channel
      * returns silently, and a value on `done` goes unheard.
      */
    method Receive(item: StreamItem)
      requires running
      modifies this`runs, this`log, this`running
      ensures log == old(log) + StepLog(SecretChange(namespace, name), runner, old(runs), StreamAction(item, false))
      ensures runs == old(runs) + (if StreamAction(item, false).React? then 1 else 0)
      ensures running <==> !StreamAction(item, false).Stop?
    {
      match item {
        case Delivered(t) =>
          if t != Added {
            OnEvent();
          }
        case StreamClosed =>
          running := false;
        case DoneSignal =>
      }
    }

    /**
      * The loop goroutine, seeing `items` in order until it returns; only the
      * closing of the result channel ends it.
      */
    method Loop(items: seq<StreamItem>)
      requires running
      modifies this`runs, this`log, this`running
      ensures log == old(log) + Trace(SecretChange(namespace, name), runner, old(runs), StreamActions(items, false))
      ensures runs == old(runs) + Reactions(StreamActions(items, false))
      ensures running <==> !Returns(items, false)
    {
      var i := 0;
      ghost var acts: seq<Action> := [];
      while i < |items| && running
        invariant 0 <= i <= |items|
        invariant acts == StreamActions(items[..i], false)
        invariant log == old(log) + Trace(SecretChange(namespace, name), runner, old(runs), acts)
        invariant runs == old(runs) + Reactions(acts)
        invariant running <==> !HasStop(acts)
        decreases |items| - i
      {
        ghost var a := StreamAction(items[i], false);
        ghost var before, runsBefore := log, runs;
        StreamActionsPrefix(items, i, false);
        Receive(items[i]);
        LoopTurn(SecretChange(namespace, name), runner, old(runs), acts, a, old(log), before, log, runsBefore);
        acts := acts + [a];
        i := i + 1;
      }
      StreamLoopExit(SecretChange(namespace, name), runner, old(runs), items, i, false);
    }

    /**
      * `NewSecretWatcher`: build the watcher and start watching; the error
      * of `watch` is dropped, so a watcher comes back whether or not it watches.
      */
    static method NewSecretWatcher(secret: string, runner: Runner, getErr: Option<string>, watchErr: Option<string>)
      returns (w: SecretWatcher)
      ensures fresh(w)
      ensures (w.namespace, w.name) == ParseNamespaceName(secret) && w.runner == runner
      ensures w.runs == 0 && w.log == [] && !w.streamStopped
      ensures w.hasStream == w.running == (getErr.None? && watchErr.None?)
    {
      w := new SecretWatcher(secret, runner);
      var _ := w.Watch(getErr, watchErr);
    }
  }
}
