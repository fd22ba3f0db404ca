/**
  * The file watcher: an fsnotify watch on the file's directory and a loop
  * that runs the command on every write event and on every create event that
  * names the file's base name.
  */
module FileWatching {
  import opened Wrappers
  import opened GoStrings
  import opened Watching

  /** The fsnotify operation bits the loop tests. */
  const Create: bv32 := 1
  const Write: bv32 := 2

  /** An fsnotify event: the name it reports and its operation bitmask. */
  datatype FsEvent = FsEvent(name: string, op: bv32)

  /** What the loop's `select` can receive: an event, an error, or a value on `done`. */
  datatype FileItem = Notified(event: FsEvent) | Failed(err: Option<string>) | DoneItem

  /** The condition under which the loop calls `OnEvent` for an event. */
  predicate Triggers(e: FsEvent, base: string)
  {
    e.op & Write == Write || (e.op & Create == Create && e.name == base)
  }

  /** What the loop does with one item it receives. */
  function FileAction(item: FileItem, base: string): Action
  {
    match item
    case Notified(e) => if Triggers(e, base) then React else Ignore
    case Failed(err) => if err.Some? then Note(err.value) else Ignore
    case DoneItem => Stop(true)
  }

  /**
    * The loop's rules, item by item: a write reacts whatever its name; a
    * create without write reacts only for the base name; any other event is
    * ignored; an error is logged when not nil and never reacts or stops the
    * loop; only `done` stops it.
    */
  lemma FileTriggerRules(item: FileItem, base: string)
    ensures var a := FileAction(item, base);
      (item.Notified? && item.event.op & Write != 0 ==> a == React) &&
      (item.Notified? && item.event.op & Write == 0 && item.event.op & Create != 0 ==>
        (a == React <==> item.event.name == base)) &&
      (item.Notified? && item.event.op & (Write | Create) == 0 ==> a == Ignore) &&
      (item.Notified? ==> a == React || a == Ignore) &&
      (item.Failed? ==> a == (if item.err.Some? then Note(item.err.value) else Ignore)) &&
      (a.Stop? <==> item.DoneItem?)
  {
  }

  /** What the loop does with each of `items`, in order. */
  function FileActions(items: seq<FileItem>, base: string): (acts: seq<Action>)
    ensures |acts| == |items|
    decreases |items|
  {
    if items == [] then []
    else FileActions(items[..|items| - 1], base) + [FileAction(items[|items| - 1], base)]
  }

  /** The actions on one more item are the actions so far, then that item's. */
  lemma FileActionsSnoc(items: seq<FileItem>, item: FileItem, base: string)
    ensures FileActions(items + [item], base) == FileActions(items, base) + [FileAction(item, base)]
  {
    var s := items + [item];
    assert s[..|s| - 1] == items && s[|s| - 1] == item;
  }

  /** The loop acts on each item by itself: the i-th action is the i-th item's. */
  lemma {:induction false} FileActionsAt(items: seq<FileItem>, base: string)
    decreases |items|
    ensures forall i :: 0 <= i < |items| ==> FileActions(items, base)[i] == FileAction(items[i], base)
  {
    if items != [] {
      FileActionsAt(items[..|items| - 1], base);
    }
  }

  /** The loop's actions on consecutive stretches of items add up. */
  lemma {:induction false} FileActionsAppend(x: seq<FileItem>, y: seq<FileItem>, base: string)
    decreases |y|
    ensures FileActions(x + y, base) == FileActions(x, base) + FileActions(y, base)
  {
    if y != [] {
      var init, last := y[..|y| - 1], y[|y| - 1];
      assert x + y == (x + init) + [last] && y == init + [last];
      FileActionsSnoc(x + init, last, base);
      FileActionsSnoc(init, last, base);
      FileActionsAppend(x, init, base);
    } else {
      assert x + y == x;
    }
  }

  /** The loop returns exactly when it receives `done`. */
  lemma {:induction false} StopsOnlyAtDone(items: seq<FileItem>, base: string)
    decreases |items|
    ensures HasStop(FileActions(items, base)) <==> DoneItem in items
  {
    if items != [] {
      var init, last := items[..|items| - 1], items[|items| - 1];
      assert items == init + [last];
      FileActionsSnoc(init, last, base);
      HasStopSnoc(FileActions(init, base), FileAction(last, base));
      StopsOnlyAtDone(init, base);
    }
  }

  /** The set of positions of `items` holding an event that triggers. */
  function Qualifying(items: seq<FileItem>, base: string): set<nat>
  {
    set i: nat | i < |items| && items[i].Notified? && Triggers(items[i].event, base)
  }

  /**
    * One reaction per qualifying event: until `done` arrives, the loop calls
    * `Run` exactly once for each event that triggers, however close together
    * the events come.
    */
  lemma OneRunPerQualifyingEvent(items: seq<FileItem>, base: string)
    requires DoneItem !in items
    ensures Reactions(FileActions(items, base)) == |Qualifying(items, base)|
  {
    var acts := FileActions(items, base);
    StopsOnlyAtDone(items, base);
    OneRunPerReaction(acts);
    FileActionsAt(items, base);
    assert ReactIndices(acts) == Qualifying(items, base);
  }

  /** Once `done` has been received, no later item is acted on. */
  lemma NothingAfterDone(subject: Subject, runner: Runner, k: nat, items: seq<FileItem>, later: seq<FileItem>, base: string)
    requires DoneItem in items
    ensures Trace(subject, runner, k, FileActions(items + later, base)) == Trace(subject, runner, k, FileActions(items, base))
    ensures Reactions(FileActions(items + later, base)) == Reactions(FileActions(items, base))
  {
    FileActionsAppend(items, later, base);
    StopsOnlyAtDone(items, base);
    NothingAfterStop(subject, runner, k, FileActions(items, base), FileActions(later, base));
  }

  /**
    * After `Close`, fsnotify has closed both channels, so the loop only sees
    * zero-valued events and nil errors until it takes `done`: none of these
    * runs the command.
    */
  lemma {:induction false} ClosedChannelsRunNothing(items: seq<FileItem>, base: string)
    requires forall i :: 0 <= i < |items| ==> items[i] in {Notified(FsEvent("", 0)), Failed(None), DoneItem}
    decreases |items|
    ensures Reactions(FileActions(items, base)) == 0
  {
    if items != [] {
      var init, last := items[..|items| - 1], items[|items| - 1];
      assert items == init + [last];
      FileActionsSnoc(init, last, base);
      HasStopSnoc(FileActions(init, base), FileAction(last, base));
      assert Notified(FsEvent("", 0)).event.op & Write == 0;
      assert Notified(FsEvent("", 0)).event.op & Create == 0;
      assert !FileAction(last, base).React?;
      ClosedChannelsRunNothing(init, base);
    }
  }

  /** The actions on the first i + 1 items: those on the first i, then item i's. */
  lemma FileActionsPrefix(items: seq<FileItem>, i: nat, base: string)
    requires i < |items|
    ensures FileActions(items[..i + 1], base) == FileActions(items[..i], base) + [FileAction(items[i], base)]
    ensures FileAction(items[i], base).Stop? <==> items[i] == DoneItem
  {
    assert items[..i + 1] == items[..i] + [items[i]];
    FileActionsSnoc(items[..i], items[i], base);
  }

  /**
    * Where the loop leaves off: having acted on the first i items, it has
    * either seen them all or returned, and in both cases it has written and
    * run what the whole of `items` calls for.
    */
  lemma LoopExit(subject: Subject, runner: Runner, k: nat, items: seq<FileItem>, i: nat, base: string)
    requires i <= |items|
    requires i < |items| ==> HasStop(FileActions(items[..i], base))
    ensures Trace(subject, runner, k, FileActions(items, base)) == Trace(subject, runner, k, FileActions(items[..i], base))
    ensures Reactions(FileActions(items, base)) == Reactions(FileActions(items[..i], base))
    ensures HasStop(FileActions(items[..i], base)) <==> DoneItem in items
  {
    if i < |items| {
      assert items == items[..i] + items[i..];
      FileActionsAppend(items[..i], items[i..], base);
      NothingAfterStop(subject, runner, k, FileActions(items[..i], base), FileActions(items[i..], base));
    } else {
      assert items[..i] == items;
    }
    StopsOnlyAtDone(items, base);
  }

  /**
    * `FileWatcher`: the watched path, the command runner, the fsnotify handle,
    * the `done` channel and the goroutine that runs the event loop.
    */
  class FileWatcher {
    const file: string
    const runner: Runner
    /** The directory handed to the OS watch. */
    var dir: string
    /** `f.watcher` has been set, and the handle is not yet closed. */
    var hasHandle: bool
    var handleOpen: bool
    /** The event loop goroutine has been started and has not returned. */
    var running: bool
    /** `Close` has sent on `done`. */
    var doneSignalled: bool
    /** `Run` calls so far, and the log written so far. */
    var runs: nat
    var log: seq<LogEntry>

    constructor (file: string, runner: Runner)
      ensures this.file == file && this.runner == runner
      ensures !hasHandle && !handleOpen && !running && !doneSignalled
      ensures runs == 0 && log == []
    {
      this.file := file;
      this.runner := runner;
      dir := "";
      hasHandle, handleOpen, running, doneSignalled := false, false, false, false;
      runs, log := 0, [];
    }

    /**
      * `watch`: create the fsnotify watcher (failing with `newErr`), split the
      * path, start the loop, and return the result of watching the directory
      * (`addErr`); the loop is already running when that fails.
      */
    method Watch(newErr: Option<string>, addErr: Option<string>) returns (err: Option<string>)
      requires !hasHandle && !handleOpen && !running
      modifies this`dir, this`hasHandle, this`handleOpen, this`running
      ensures newErr.Some? ==> err == newErr && !hasHandle && !running && !handleOpen && dir == old(dir)
      ensures newErr.None? ==> err == addErr && hasHandle && handleOpen && running
      ensures newErr.None? ==> dir == PathSplit(file).0
    {
      if newErr.Some? {
        return newErr;
      }
      hasHandle, handleOpen := true, true;
      dir := PathSplit(file).0;
      running := true;
      err := addErr;
    }

    /** `OnEvent`: log the detection, run the command once, log what it returned. */
    method OnEvent()
      modifies this`runs, this`log
      ensures runs == old(runs) + 1
      ensures log == old(log) + [Detected(FileChange(file))] + ReactionLog(runner(old(runs)))
    {
      log := log + [Detected(FileChange(file))];
      var result := runner(runs);
      runs := runs + 1;
      if result.err.Some? {
        log := log + [CommandError(result.err.value)];
      }
      if |result.stdout| > 0 {
        log := log + [CommandOutput(result.stdout)];
      }
      if |result.stderr| > 0 {
        log := log + [CommandStderr(result.stderr)];
      }
    }

    /** `Close`: send on `done`, then close the fsnotify handle. */
    method Close(closeErr: Option<string>) returns (outcome: CloseOutcome)
      modifies this`doneSignalled, this`handleOpen
      ensures doneSignalled && (hasHandle ==> !handleOpen)
      ensures outcome == if !hasHandle then NilPanic else Closed(if old(handleOpen) then closeErr else None)
    {
      doneSignalled := true;
      if !hasHandle {
        return NilPanic;
      }
      if handleOpen {
        handleOpen := false;
        outcome := Closed(closeErr);
      } else {
        outcome := Closed(None);
      }
    }

    /**
      * One turn of the loop's `select`: react to an event that triggers, log
      * an error that is not nil, or take `done`, log it and stop.
      */
    method Receive(item: FileItem, base: string)
      requires running
      requires item.DoneItem? ==> doneSignalled
      modifies this`runs, this`log, this`running
      ensures log == old(log) + StepLog(FileChange(file), runner, old(runs), FileAction(item, base))
      ensures runs == old(runs) + (if FileAction(item, base).React? then 1 else 0)
      ensures running <==> !item.DoneItem?
    {
      match item {
        case Notified(e) =>
          if e.op & Write == Write || (e.op & Create == Create && e.name == base) {
            OnEvent();
          }
        case Failed(err) =>
          if err.Some? {
            log := log + [WatchError(err.value)];
          }
        case DoneItem =>
          log := log + [WatcherDone(FileChange(file))];
          running := false;
      }
    }

    /**
      * The body of the loop goroutine, receiving `items` in order until it
      * takes `done`; `base` is the name the goroutine is handed. A `done`
      * item can only be received once `Close` has sent it.
      */
    method Loop(items: seq<FileItem>, base: string)
      requires running
      requires doneSignalled || DoneItem !in items
      modifies this`runs, this`log, this`running
      ensures log == old(log) + Trace(FileChange(file), runner, old(runs), FileActions(items, base))
      ensures runs == old(runs) + Reactions(FileActions(items, base))
      ensures running <==> DoneItem !in items
    {
      var i := 0;
      ghost var acts: seq<Action> := [];
      while i < |items| && running
        invariant 0 <= i <= |items|
        invariant acts == FileActions(items[..i], base)
        invariant log == old(log) + Trace(FileChange(file), runner, old(runs), acts)
        invariant runs == old(runs) + Reactions(acts)
        invariant running <==> !HasStop(acts)
        decreases |items| - i
      {
        ghost var a := FileAction(items[i], base);
        ghost var before, runsBefore := log, runs;
        FileActionsPrefix(items, i, base);
        Receive(items[i], base);
        LoopTurn(FileChange(file), runner, old(runs), acts, a, old(log), before, log, runsBefore);
        acts := acts + [a];
        i := i + 1;
      }
      LoopExit(FileChange(file), runner, old(runs), items, i, base);
    }

    /**
      * The goroutine `watch` starts: the loop, handed the base name of the
      * watched path, so a create event triggers exactly when it names that
      * base name.
      */
    method WatchLoop(items: seq<FileItem>)
      requires running
      requires doneSignalled || DoneItem !in items
      modifies this`runs, this`log, this`running
      ensures log == old(log) + Trace(FileChange(file), runner, old(runs), FileActions(items, PathSplit(file).1))
      ensures runs == old(runs) + Reactions(FileActions(items, PathSplit(file).1))
      ensures running <==> DoneItem !in items
    {
      var (_, base) := PathSplit(file);
      Loop(items, base);
    }

    /**
      * `NewFileWatcher`: build the watcher, start watching, and hand back both
      * the watcher and `watch`'s error.
      */
    static method NewFileWatcher(file: string, runner: Runner, newErr: Option<string>, addErr: Option<string>)
      returns (w: FileWatcher, err: Option<string>)
      ensures fresh(w)
      ensures w.file == file && w.runner == runner && w.runs == 0 && w.log == [] && !w.doneSignalled
      ensures err == if newErr.Some? then newErr else addErr
      ensures w.running <==> newErr.None?
      ensures w.hasHandle == w.handleOpen == newErr.None?
      ensures w.running ==> w.dir == PathSplit(file).0
    {
      w := new FileWatcher(file, runner);
      err := w.Watch(newErr, addErr);
    }
  }
}
