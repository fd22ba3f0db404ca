/**
  * What the three watchers share: the `CmdRunner.Run` result, the reaction
  * every watcher's `OnEvent` performs (log the detection, run the command, log
  * error, stdout and stderr), and the log that an event loop leaves behind.
  *
  * Each watcher's loop turns every item it receives into an `Action`; `Trace`
  * and `Reactions` give the log and the number of `Run` calls that a sequence
  * of actions produces, and the lemmas below state how they compose.
  */
module Watching {
  import opened Wrappers

  /** `CmdRunner.Run`'s result: (stdout, stderr, error). */
  datatype RunResult = RunResult(stdout: string, stderr: string, err: Option<string>)

  /** The command runner, seen from a watcher: the result of its k-th `Run` call. */
  type Runner = nat -> RunResult

  /** The resource whose change a watcher reports. */
  datatype Subject =
    | FileChange(path: string)
    | ConfigMapChange(namespace: string, name: string)
    | SecretChange(namespace: string, name: string)

  /** One line of log output, by kind rather than by its text. */
  datatype LogEntry =
    | Detected(subject: Subject)      // "change in ... detected. Executing command..."
    | CommandError(err: string)       // "error: ..."
    | CommandOutput(text: string)     // "command output: ..."
    | CommandStderr(text: string)     // "command error: ..."
    | WatchError(err: string)         // "error watching file: ..."
    | WatcherDone(subject: Subject)   // "file watcher done" / "configmap watcher done"

  /** What `Close` amounts to: its returned error, or a nil-dereference panic. */
  datatype CloseOutcome = Closed(err: Option<string>) | NilPanic

  /** Kubernetes watch event types. */
  datatype EventType = Added | Modified | Deleted | Error

  /**
    * What a Kubernetes watcher's loop can receive, in order: an event on the
    * result channel, the result channel's closing, or a value on `done`.
    */
  datatype StreamItem = Delivered(eventType: EventType) | StreamClosed | DoneSignal

  /** What a loop does with one item it receives. */
  datatype Action =
    | React                   // call OnEvent
    | Note(err: string)       // log a watch error and carry on
    | Ignore                  // nothing
    | Stop(announced: bool)   // return from the loop, logging "done" if announced

  /** Position of each command log line within one reaction. */
  function Rank(e: LogEntry): nat
  {
    match e
    case CommandError(_) => 0
    case CommandOutput(_) => 1
    case CommandStderr(_) => 2
    case _ => 3
  }

  /** The lines `OnEvent` logs after `Run` returns `r`. */
  function ReactionLog(r: RunResult): seq<LogEntry>
  {
    (if r.err.Some? then [CommandError(r.err.value)] else []) +
    (if r.stdout != "" then [CommandOutput(r.stdout)] else []) +
    (if r.stderr != "" then [CommandStderr(r.stderr)] else [])
  }

  /**
    * The logging rule of `OnEvent`: the error exactly when there is one,
    * stdout exactly when it is non-empty, stderr exactly when it is non-empty,
    * in that order, each at most once, and nothing else.
    */
  lemma LoggingRule(r: RunResult)
    ensures var entries := ReactionLog(r);
      (r.err.Some? <==> |entries| > 0 && entries[0].CommandError?) &&
      (r.err.Some? ==> entries[0] == CommandError(r.err.value)) &&
      (r.stdout != "" <==> CommandOutput(r.stdout) in entries) &&
      (forall i :: 0 <= i < |entries| && entries[i].CommandOutput? ==> entries[i] == CommandOutput(r.stdout)) &&
      (r.stderr != "" <==> |entries| > 0 && entries[|entries| - 1].CommandStderr?) &&
      (r.stderr != "" ==> entries[|entries| - 1] == CommandStderr(r.stderr)) &&
      (forall i, j :: 0 <= i < j < |entries| ==> Rank(entries[i]) < Rank(entries[j])) &&
      (forall i :: 0 <= i < |entries| ==> Rank(entries[i]) < 3)
  {
  }

  /** Whether the loop has returned by the end of `acts`. */
  predicate HasStop(acts: seq<Action>)
    decreases |acts|
  {
    acts != [] && (HasStop(acts[..|acts| - 1]) || acts[|acts| - 1].Stop?)
  }

  /** The number of `Run` calls the loop makes while carrying out `acts`. */
  function Reactions(acts: seq<Action>): nat
    decreases |acts|
  {
    if acts == [] then 0
    else
      var init := acts[..|acts| - 1];
      Reactions(init) + (if !HasStop(init) && acts[|acts| - 1].React? then 1 else 0)
  }

  /** The log a single action writes, its reaction (if any) being the runner's k-th call. */
  function StepLog(subject: Subject, runner: Runner, k: nat, a: Action): seq<LogEntry>
  {
    match a
    case React => [Detected(subject)] + ReactionLog(runner(k))
    case Note(err) => [WatchError(err)]
    case Ignore => []
    case Stop(announced) => if announced then [WatcherDone(subject)] else []
  }

  /**
    * The log a loop writes while carrying out `acts`, its first reaction being
    * the runner's k-th call. Nothing after the first `Stop` is carried out.
    */
  function Trace(subject: Subject, runner: Runner, k: nat, acts: seq<Action>): seq<LogEntry>
    decreases |acts|
  {
    if acts == [] then []
    else
      var init := acts[..|acts| - 1];
      Trace(subject, runner, k, init) + TurnLog(subject, runner, k, init, acts[|acts| - 1])
  }

  /** What carrying out `x` after `init` adds to the log: nothing once the loop has returned. */
  function TurnLog(subject: Subject, runner: Runner, k: nat, init: seq<Action>, x: Action): seq<LogEntry>
  {
    if HasStop(init) then [] else StepLog(subject, runner, k + Reactions(init), x)
  }

  /** The loop has returned after one more action exactly when it had already, or that action returns. */
  lemma HasStopSnoc(acts: seq<Action>, x: Action)
    ensures HasStop(acts + [x]) <==> HasStop(acts) || x.Stop?
  {
    var s := acts + [x];
    assert s[..|s| - 1] == acts && s[|s| - 1] == x;
  }

  /** One more action adds a `Run` call exactly when it is a reaction the loop still carries out. */
  lemma ReactionsSnoc(acts: seq<Action>, x: Action)
    ensures Reactions(acts + [x]) == Reactions(acts) + (if !HasStop(acts) && x.React? then 1 else 0)
  {
    var s := acts + [x];
    assert s[..|s| - 1] == acts && s[|s| - 1] == x;
  }

  /**
    * One more turn of the loop: carrying out `x` after `acts` appends x's own
    * lines, its reaction being the next `Run` call, unless the loop has
    * already returned.
    */
  lemma TraceSnoc(subject: Subject, runner: Runner, k: nat, acts: seq<Action>, x: Action)
    ensures Trace(subject, runner, k, acts + [x]) == Trace(subject, runner, k, acts) + TurnLog(subject, runner, k, acts, x)
  {
    var s := acts + [x];
    TraceLast(subject, runner, k, s);
    assert s[..|s| - 1] == acts && s[|s| - 1] == x;
  }

  /** `Trace` of a non-empty sequence, unfolded once. */
  lemma TraceLast(subject: Subject, runner: Runner, k: nat, s: seq<Action>)
    requires s != []
    ensures Trace(subject, runner, k, s) == Trace(subject, runner, k, s[..|s| - 1]) + TurnLog(subject, runner, k, s[..|s| - 1], s[|s| - 1])
  {
  }

  /**
    * A loop turn keeps a loop's bookkeeping: if the log so far is `start`
    * followed by what `acts` wrote, and the runner has been called `k + Reactions(acts)`
    * times, then after the turn carries out `a` the log is `start` followed
    * by what `acts + [a]` writes.
    */
  lemma LoopTurn(subject: Subject, runner: Runner, k: nat, acts: seq<Action>, a: Action,
                 start: seq<LogEntry>, before: seq<LogEntry>, after: seq<LogEntry>, runs: nat)
    requires !HasStop(acts)
    requires before == start + Trace(subject, runner, k, acts)
    requires runs == k + Reactions(acts)
    requires after == before + StepLog(subject, runner, runs, a)
    ensures after == start + Trace(subject, runner, k, acts + [a])
    ensures runs + (if a.React? then 1 else 0) == k + Reactions(acts + [a])
    ensures HasStop(acts + [a]) <==> a.Stop?
  {
    LiveTurn(subject, runner, k, acts, a);
    TraceSnoc(subject, runner, k, acts, a);
    AppendStep(start, Trace(subject, runner, k, acts), StepLog(subject, runner, runs, a),
      Trace(subject, runner, k, acts + [a]), before, after);
    ReactionsSnoc(acts, a);
    HasStopSnoc(acts, a);
  }

  /** A loop that has not returned carries out its next action in full, as the next `Run` call. */
  lemma LiveTurn(subject: Subject, runner: Runner, k: nat, init: seq<Action>, x: Action)
    requires !HasStop(init)
    ensures TurnLog(subject, runner, k, init, x) == StepLog(subject, runner, k + Reactions(init), x)
  {
  }

  /** Appending a step to a log that is `start` followed by `t`. */
  lemma AppendStep<T>(start: seq<T>, t: seq<T>, step: seq<T>, t2: seq<T>, before: seq<T>, after: seq<T>)
    requires t2 == t + step && before == start + t && after == before + step
    ensures after == start + t2
  {
    assert (start + t) + step == start + (t + step);
  }

  /** Once the loop has returned, nothing that follows is carried out. */
  lemma {:induction false} NothingAfterStop(subject: Subject, runner: Runner, k: nat, a: seq<Action>, b: seq<Action>)
    requires HasStop(a)
    decreases |b|
    ensures HasStop(a + b)
    ensures Trace(subject, runner, k, a + b) == Trace(subject, runner, k, a)
    ensures Reactions(a + b) == Reactions(a)
  {
    if b == [] {
      assert a + b == a;
    } else {
      var init, x := b[..|b| - 1], b[|b| - 1];
      NothingAfterStop(subject, runner, k, a, init);
      DeadTurn(subject, runner, k, a + init, x);
      assert a + b == (a + init) + [x];
    }
  }

  /** A turn after the loop has returned writes nothing and calls nothing. */
  lemma DeadTurn(subject: Subject, runner: Runner, k: nat, acts: seq<Action>, x: Action)
    requires HasStop(acts)
    ensures HasStop(acts + [x])
    ensures Trace(subject, runner, k, acts + [x]) == Trace(subject, runner, k, acts)
    ensures Reactions(acts + [x]) == Reactions(acts)
  {
    TraceSnoc(subject, runner, k, acts, x);
    assert TurnLog(subject, runner, k, acts, x) == [];
    HasStopSnoc(acts, x);
    ReactionsSnoc(acts, x);
  }

  /** The loop returns exactly at its first `Stop` action. */
  lemma {:induction false} StopIsReturn(acts: seq<Action>)
    ensures HasStop(acts) <==> exists i :: 0 <= i < |acts| && acts[i].Stop?
  {
    if acts != [] {
      var init := acts[..|acts| - 1];
      StopIsReturn(init);
      assert forall i :: 0 <= i < |init| ==> init[i] == acts[i];
    }
  }

  /** The indices of `acts` that are reactions. */
  function ReactIndices(acts: seq<Action>): set<nat>
  {
    set i: nat | i < |acts| && acts[i].React?
  }

  /**
    * No coalescing: a loop that has not returned calls `Run` once per reaction
    * it was handed, however close together they came.
    */
  lemma {:induction false} OneRunPerReaction(acts: seq<Action>)
    requires !HasStop(acts)
    ensures Reactions(acts) == |ReactIndices(acts)|
  {
    if acts != [] {
      var n := |acts| - 1;
      var init := acts[..n];
      OneRunPerReaction(init);
      if acts[n].React? {
        assert ReactIndices(acts) == ReactIndices(init) + {n};
      } else {
        assert ReactIndices(acts) == ReactIndices(init);
      }
    }
  }

  /** How many `Detected` lines a log holds. */
  function DetectedCount(log: seq<LogEntry>): nat
  {
    if log == [] then 0 else (if log[0].Detected? then 1 else 0) + DetectedCount(log[1..])
  }

  /** Counting "detected" lines distributes over concatenation. */
  lemma {:induction false} DetectedCountAppend(x: seq<LogEntry>, y: seq<LogEntry>)
    ensures DetectedCount(x + y) == DetectedCount(x) + DetectedCount(y)
  {
    if x == [] {
      assert x + y == y;
    } else {
      assert (x + y)[0] == x[0] && (x + y)[1..] == x[1..] + y;
      DetectedCountAppend(x[1..], y);
    }
  }

  /** A log without "detected" lines counts none. */
  lemma {:induction false} NoDetected(log: seq<LogEntry>)
    requires forall i :: 0 <= i < |log| ==> !log[i].Detected?
    ensures DetectedCount(log) == 0
  {
    if log != [] {
      assert forall i :: 0 <= i < |log[1..]| ==> log[1..][i] == log[i + 1];
      NoDetected(log[1..]);
    }
  }

  /** One action's lines report a detected change exactly when it is a reaction. */
  lemma StepDetected(subject: Subject, runner: Runner, k: nat, a: Action)
    ensures DetectedCount(StepLog(subject, runner, k, a)) == if a.React? then 1 else 0
  {
    if a.React? {
      LoggingRule(runner(k));
      NoDetected(ReactionLog(runner(k)));
      DetectedCountAppend([Detected(subject)], ReactionLog(runner(k)));
    }
  }

  /** One more action keeps the log's "detected" lines in step with the `Run` calls. */
  lemma DetectedSnoc(subject: Subject, runner: Runner, k: nat, init: seq<Action>, x: Action)
    requires DetectedCount(Trace(subject, runner, k, init)) == Reactions(init)
    ensures DetectedCount(Trace(subject, runner, k, init + [x])) == Reactions(init + [x])
  {
    TraceSnoc(subject, runner, k, init, x);
    ReactionsSnoc(init, x);
    TurnDetected(subject, runner, k, init, x);
    DetectedAddUp(Trace(subject, runner, k, init), TurnLog(subject, runner, k, init, x),
      Trace(subject, runner, k, init + [x]), Reactions(init), if !HasStop(init) && x.React? then 1 else 0,
      Reactions(init + [x]));
  }

  /** A turn logs a "detected" line exactly when it is a reaction the loop carries out. */
  lemma TurnDetected(subject: Subject, runner: Runner, k: nat, init: seq<Action>, x: Action)
    ensures DetectedCount(TurnLog(subject, runner, k, init, x)) == if !HasStop(init) && x.React? then 1 else 0
  {
    if !HasStop(init) {
      StepDetected(subject, runner, k + Reactions(init), x);
    }
  }

  /** The "detected" count of a concatenation, from the counts of its parts. */
  lemma DetectedAddUp(a: seq<LogEntry>, b: seq<LogEntry>, whole: seq<LogEntry>, ra: nat, c: nat, r: nat)
    requires whole == a + b && DetectedCount(a) == ra && DetectedCount(b) == c && r == ra + c
    ensures DetectedCount(whole) == r
  {
    DetectedCountAppend(a, b);
  }

  /** The log reports a detected change exactly once per `Run` call. */
  lemma {:induction false} DetectedPerRun(subject: Subject, runner: Runner, k: nat, acts: seq<Action>)
    decreases |acts|
    ensures DetectedCount(Trace(subject, runner, k, acts)) == Reactions(acts)
  {
    if acts != [] {
      var init, x := acts[..|acts| - 1], acts[|acts| - 1];
      assert acts == init + [x];
      DetectedPerRun(subject, runner, k, init);
      DetectedSnoc(subject, runner, k, init, x);
    }
  }
}
