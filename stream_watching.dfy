/**
  * The event loop that the configmap and secret watchers share: a `select`
  * over the Kubernetes watch's result channel, which runs the command for every
  * event that is not `Added` and returns once the channel is closed. The
  * configmap watcher's loop has a second case, a value on its `done` channel;
  * the secret watcher's loop has not, which `hearsDone` tells apart.
  */
module StreamWatching {
  import opened Watching

  /** What a loop does with one item it receives. */
  function StreamAction(item: StreamItem, hearsDone: bool): Action
  {
    match item
    case Delivered(t) => if t != Added then React else Ignore
    case StreamClosed => Stop(false)
    case DoneSignal => if hearsDone then Stop(true) else Ignore
  }

  /**
    * The loop's rules, item by item: every event but `Added` (so `Modified`,
    * `Deleted` and `Error` alike) runs the command; the channel's closing
    * returns without a log line; `done` returns with one where the loop
    * selects on it and goes unheard where it does not.
    */
  lemma StreamRules(item: StreamItem, hearsDone: bool)
    ensures var a := StreamAction(item, hearsDone);
      (item.Delivered? ==> (a == React <==> item.eventType != Added) && (a == Ignore <==> item.eventType == Added)) &&
      (item == StreamClosed ==> a == Stop(false)) &&
      (item == DoneSignal ==> a == if hearsDone then Stop(true) else Ignore) &&
      (a.Stop? <==> item == StreamClosed || (hearsDone && item == DoneSignal))
  {
  }

  /** What the loop does with each of `items`, in order. */
  function StreamActions(items: seq<StreamItem>, hearsDone: bool): (acts: seq<Action>)
    ensures |acts| == |items|
    decreases |items|
  {
    if items == [] then []
    else StreamActions(items[..|items| - 1], hearsDone) + [StreamAction(items[|items| - 1], hearsDone)]
  }

  /** The actions on one more item are the actions so far, then that item's. */
  lemma StreamActionsSnoc(items: seq<StreamItem>, item: StreamItem, hearsDone: bool)
    ensures StreamActions(items + [item], hearsDone) == StreamActions(items, hearsDone) + [StreamAction(item, hearsDone)]
  {
    var s := items + [item];
    assert s[..|s| - 1] == items && s[|s| - 1] == item;
  }

  /** The loop acts on each item by itself: the i-th action is the i-th item's. */
  lemma {:induction false} StreamActionsAt(items: seq<StreamItem>, hearsDone: bool)
    decreases |items|
    ensures forall i :: 0 <= i < |items| ==> StreamActions(items, hearsDone)[i] == StreamAction(items[i], hearsDone)
  {
    if items != [] {
      StreamActionsAt(items[..|items| - 1], hearsDone);
    }
  }

  /** The loop's actions on consecutive stretches of items add up. */
  lemma {:induction false} StreamActionsAppend(x: seq<StreamItem>, y: seq<StreamItem>, hearsDone: bool)
    decreases |y|
    ensures StreamActions(x + y, hearsDone) == StreamActions(x, hearsDone) + StreamActions(y, hearsDone)
  {
    if y != [] {
      var init, last := y[..|y| - 1], y[|y| - 1];
      assert x + y == (x + init) + [last] && y == init + [last];
      StreamActionsSnoc(x + init, last, hearsDone);
      StreamActionsSnoc(init, last, hearsDone);
      StreamActionsAppend(x, init, hearsDone);
    } else {
      assert x + y == x;
    }
  }

  /** Whether the loop has a case for `items` that makes it return. */
  predicate Returns(items: seq<StreamItem>, hearsDone: bool)
  {
    StreamClosed in items || (hearsDone && DoneSignal in items)
  }

  /**
    * The loop returns exactly when the result channel is closed or, where it
    * selects on `done`, when `done` delivers.
    */
  lemma {:induction false} ReturnsOnlyOnCloseOrDone(items: seq<StreamItem>, hearsDone: bool)
    decreases |items|
    ensures HasStop(StreamActions(items, hearsDone)) <==> Returns(items, hearsDone)
  {
    if items != [] {
      var init, last := items[..|items| - 1], items[|items| - 1];
      assert items == init + [last];
      StreamActionsSnoc(init, last, hearsDone);
      HasStopSnoc(StreamActions(init, hearsDone), StreamAction(last, hearsDone));
      ReturnsOnlyOnCloseOrDone(init, hearsDone);
    }
  }

  /** The set of positions of `items` holding an event other than `Added`. */
  function Changes(items: seq<StreamItem>): set<nat>
  {
    set i: nat | i < |items| && items[i].Delivered? && items[i].eventType != Added
  }

  /**
    * One reaction per change: until the loop returns, it calls `Run` exactly
    * once for every event that is not `Added`, however close together they come.
    */
  lemma OneRunPerChange(items: seq<StreamItem>, hearsDone: bool)
    requires !Returns(items, hearsDone)
    ensures Reactions(StreamActions(items, hearsDone)) == |Changes(items)|
  {
    var acts := StreamActions(items, hearsDone);
    ReturnsOnlyOnCloseOrDone(items, hearsDone);
    OneRunPerReaction(acts);
    StreamActionsAt(items, hearsDone);
    assert ReactIndices(acts) == Changes(items);
  }

  /** Once the loop has returned, no later item is acted on. */
  lemma NothingAfterReturn(subject: Subject, runner: Runner, k: nat, items: seq<StreamItem>,
                           later: seq<StreamItem>, hearsDone: bool)
    requires Returns(items, hearsDone)
    ensures Trace(subject, runner, k, StreamActions(items + later, hearsDone)) ==
      Trace(subject, runner, k, StreamActions(items, hearsDone))
    ensures Reactions(StreamActions(items + later, hearsDone)) == Reactions(StreamActions(items, hearsDone))
  {
    StreamActionsAppend(items, later, hearsDone);
    ReturnsOnlyOnCloseOrDone(items, hearsDone);
    NothingAfterStop(subject, runner, k, StreamActions(items, hearsDone), StreamActions(later, hearsDone));
  }

  /**
    * The two loops differ only in `done`: on items where `done` does not
    * deliver, the configmap loop and the secret loop act alike.
    */
  lemma {:induction false} SameLoopWithoutDone(items: seq<StreamItem>)
    requires DoneSignal !in items
    decreases |items|
    ensures StreamActions(items, true) == StreamActions(items, false)
  {
    if items != [] {
      var init := items[..|items| - 1];
      assert DoneSignal !in init by {
        assert forall i :: 0 <= i < |init| ==> init[i] == items[i];
      }
      SameLoopWithoutDone(init);
    }
  }

  /** The actions on the first i + 1 items: those on the first i, then item i's. */
  lemma StreamActionsPrefix(items: seq<StreamItem>, i: nat, hearsDone: bool)
    requires i < |items|
    ensures StreamActions(items[..i + 1], hearsDone) ==
      StreamActions(items[..i], hearsDone) + [StreamAction(items[i], hearsDone)]
  {
    assert items[..i + 1] == items[..i] + [items[i]];
    StreamActionsSnoc(items[..i], items[i], hearsDone);
  }

  /**
    * Where a loop leaves off: having acted on the first i items, it has either
    * seen them all or returned, and in both cases it has written and run what
    * the whole of `items` calls for.
    */
  lemma StreamLoopExit(subject: Subject, runner: Runner, k: nat, items: seq<StreamItem>, i: nat, hearsDone: bool)
    requires i <= |items|
    requires i < |items| ==> HasStop(StreamActions(items[..i], hearsDone))
    ensures Trace(subject, runner, k, StreamActions(items, hearsDone)) ==
      Trace(subject, runner, k, StreamActions(items[..i], hearsDone))
    ensures Reactions(StreamActions(items, hearsDone)) == Reactions(StreamActions(items[..i], hearsDone))
    ensures HasStop(StreamActions(items[..i], hearsDone)) <==> Returns(items, hearsDone)
  {
    if i < |items| {
      assert items == items[..i] + items[i..];
      StreamActionsAppend(items[..i], items[i..], hearsDone);
      NothingAfterStop(subject, runner, k, StreamActions(items[..i], hearsDone), StreamActions(items[i..], hearsDone));
    } else {
      assert items[..i] == items;
    }
    ReturnsOnlyOnCloseOrDone(items, hearsDone);
  }
}
