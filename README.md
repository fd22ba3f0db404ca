# watch-kube-resource, modelled in Dafny

watch-kube-resource is a sidecar. It watches one resource (a file, a
configmap or a secret) and, on every change, runs a command inside a
container of a pod through the Kubernetes `exec` sub-resource. It logs
what the command printed.

The model covers:

- `main`'s start-up decisions: the command check, the pod fallback from
  POD_NAME and POD_NAMESPACE, the count of target flags, the choice of
  watcher, and the split of the command line into argv (`Startup`).
- The Go library functions this code relies on: `strings.Split`,
  `strings.TrimSpace` and `path.Split` (`GoStrings`).
- What the three watchers share: the `OnEvent` reaction, and the log and
  the number of `Run` calls an event loop produces (`Watching`).
- The file watcher (`FileWatching`).
- The loop shared by the configmap and secret watchers (`StreamWatching`),
  and the two watchers themselves (`ConfigmapWatching`, `SecretWatching`).
- The command runner: the request it builds and the result it returns
  (`CommandRunning`).
- The last step of start-up, which builds the watcher the flags chose
  (`Sidecar`).

How the model represents the Go runtime:

- Each watcher is a class with the fields its Go struct sets.
- Each event-loop goroutine is a method that takes the items its `select`
  receives, in the order received. Every item becomes an action:
  react, note an error, ignore, or return.
- `Trace` and `Reactions` give the log written and the `Run` calls made
  for a sequence of actions. Each loop is proved to produce exactly these.
- The command runner, seen from a watcher, is the function `Runner`. It
  gives the result of the k-th `Run` call.
- Kubernetes, fsnotify and the remote exec stream are oracles passed in
  as parameters.

Behaviour of the code worth knowing:

- `main` splits the command on single spaces (main.go:103), not on white
  space. Two spaces in a row give an empty argument
  (`GoStrings.SplitDoubleSep`).
- `NewConfigmapWatcher` and `NewSecretWatcher` drop the error of `watch`
  (configmap_watcher.go:49, secret_watcher.go:49). They always return a
  watcher, which, when `watch` fails, has no stream, and whose `Close`
  then dereferences nil.
  Only the file watcher's construction error stops `main`
  (`Sidecar.StartWatcher`).
- fsnotify reports an event's name as the watched directory joined with
  the entry's name (a watch on "/tmp/" reports "/tmp/t"), while the loop
  compares it with the bare base name (file_watcher.go:90). So a create
  event without the write bit never reacts in practice. The model leaves
  event names abstract, so `FileWatching.FileTriggerRules` states the rule
  as written, and its create clause is not reached by real fsnotify events.
- The secret watcher's loop never receives from `done`
  (secret_watcher.go:92-100). Only the closing of the result channel ends
  it.
- The help text of `--pod` (main.go:38) asks for `namespace/name`, but
  `Run` binds the decoded pair as `name, namespace` (cmd_runner.go:59).
  The POD_NAME/POD_NAMESPACE fallback (main.go:72) is written `name/namespace`
  and so resolves correctly, while a `--pod` value written as its help text
  asks names the wrong pod (`CommandRunning.PodStringResolves`).

## Model

| member | source | states |
|---|---|---|
| Startup.ParseNamespaceName | main.go:132-138 | Without '/' the result is ("default", s). With '/', both parts are '/'-free, `ns/name` is a prefix of s, and that prefix is followed by '/' or the end of s (the first two segments). |
| Startup.FirstTwoSegments | main.go:133-137 | For a string with '/', the first two pieces of the split, joined by '/', are a prefix of the string, followed by '/' or the end of the string. |
| Startup.ParseRoundTrip | main.go:132-137 | For '/'-free ns and name, parsing `ns/name` gives back (ns, name). |
| Startup.ParseDropsExtraSegments | main.go:133-137 | "a/b/c" parses to ("a", "b"): segments after the second are dropped. |
| Startup.ActivatedCount | main.go:76-81 | The number of active target flags is the sum, over file, configmap and secret, of 1 for each one that is non-empty. |
| Startup.CountActivated | main.go:76-81 | The counting loop returns the size of the set of positions holding a non-empty flag. |
| Startup.Configure | main.go:57-103 | An empty command is fatal before anything else. Without `--pod`, an empty POD_NAME is fatal before an empty POD_NAMESPACE. Two or more target flags are fatal, and so are none. `main` goes on exactly when the command is set, the pod is known and exactly one target flag is set. The pod is `--pod` or POD_NAME/POD_NAMESPACE. argv is the command split on ' '. The chosen watcher is the one whose flag is set, as the if-chain at main.go:106-117 picks it. |
| GoStrings.CountZero | main.go:133-134 | `strings.Count` is zero exactly when the separator is absent, so a string with no '/' splits into one part. |
| GoStrings.Split | main.go:103 | `strings.Split` gives one more piece than there are separators, and no piece contains the separator. |
| GoStrings.JoinSplit | main.go:133 | Joining the pieces of a split with the separator gives back the original string. |
| GoStrings.SplitWithoutSep | main.go:133-136 | A string without the separator splits into just itself. |
| GoStrings.SplitAtSep | main.go:103 | Splitting `x + sep + y` gives the pieces of x followed by the pieces of y. |
| GoStrings.SplitDoubleSep | main.go:103 | Two separators in a row give an empty piece between the pieces on either side, so a double space in `--command` gives an empty argument. |
| GoStrings.SplitJoin | main.go:133-137 | Splitting a join of separator-free pieces gives the pieces back. |
| GoStrings.TrimSpace | cmd_runner.go:85 | The result starts and ends with a character that is not white space. It is a contiguous part of the input, and everything cut off on either side is white space. |
| GoStrings.TrimSpaceIdempotent | cmd_runner.go:85 | Trimming twice is trimming once. |
| GoStrings.TrimSpaceCutsSpace | cmd_runner.go:85 | The trimmed text sits at some position in the input, with only white space before and after it. |
| GoStrings.PathSplit | file_watcher.go:83 | The directory part and the file part concatenate to the path. The file part has no '/'. The directory part is empty or ends in '/'. |
| Watching.LoggingRule | file_watcher.go:55-67 | `OnEvent` logs the error exactly when there is one, stdout exactly when it is non-empty, and stderr exactly when it is non-empty, in that order, each at most once, and nothing else. |
| Watching.NothingAfterStop | file_watcher.go:97-99 | Once a loop has returned, later actions add no log lines and no `Run` calls. |
| Watching.StopIsReturn | file_watcher.go:84-102 | A loop has returned exactly when some action so far was a return. |
| Watching.OneRunPerReaction | file_watcher.go:84-102 | A loop that has not returned calls `Run` once per reaction it was handed: nothing is coalesced. |
| Watching.StepDetected | file_watcher.go:55-67 | One action logs a "detected" line exactly when it is a reaction. |
| Watching.DetectedPerRun | file_watcher.go:55-67 | A loop's log holds exactly one "detected" line per `Run` call it made. |
| FileWatching.FileTriggerRules | file_watcher.go:87-99 | A write event reacts, whatever its name. A create event without write reacts exactly when it names the file's base name. Any other event is ignored. A non-nil error is logged, and a nil error is ignored. Only `done` returns. |
| FileWatching.StopsOnlyAtDone | file_watcher.go:84-102 | The file loop has returned exactly when it has received `done`. |
| FileWatching.OneRunPerQualifyingEvent | file_watcher.go:87-92 | Before `done`, the number of `Run` calls equals the number of events that satisfy the trigger. |
| FileWatching.NothingAfterDone | file_watcher.go:97-99 | Items after `done` change neither the log nor the `Run` count. |
| FileWatching.ClosedChannelsRunNothing | file_watcher.go:87-96 | After `Close` closes the fsnotify handle, the zero events and nil errors the loop then receives never run the command. |
| FileWatching.FileWatcher.constructor | file_watcher.go:44-48 | The new watcher holds the file and the runner, has no handle, no loop and no log. |
| FileWatching.FileWatcher.Watch | file_watcher.go:76-104 | A `NewWatcher` error is returned with nothing set: no handle, no loop, the directory unchanged. Otherwise the handle is kept, the loop is started, the directory part of the path is watched, and `Add`'s error is returned. |
| FileWatching.FileWatcher.OnEvent | file_watcher.go:55-67 | Exactly one `Run` call. The log gains the detected line, then the lines of the logging rule for that call's result. |
| FileWatching.FileWatcher.Close | file_watcher.go:70-73 | Sends `done`, then closes the handle and returns `Close`'s error. Without a handle, this is a nil-dereference panic. |
| FileWatching.FileWatcher.Receive | file_watcher.go:86-100 | One `select` turn appends that item's lines and `Run` call. The loop keeps running unless the item was `done`. |
| FileWatching.FileWatcher.Loop | file_watcher.go:84-102 | The loop writes exactly `Trace` of the items' actions and makes exactly `Reactions` of them in `Run` calls. It is still running exactly when `done` was not among the items. |
| FileWatching.FileWatcher.WatchLoop | file_watcher.go:83-102 | The goroutine `watch` starts is the loop handed the base name of the watched path: it writes exactly `Trace` and makes exactly `Reactions` of the items' actions under that base name, and is still running exactly when `done` was not among the items. |
| FileWatching.FileWatcher.NewFileWatcher | file_watcher.go:43-52 | Returns a fresh watcher together with `watch`'s error. It holds an open fsnotify handle, and its loop runs, exactly when `NewWatcher` succeeded; it then watches the file's directory. |
| StreamWatching.StreamRules | configmap_watcher.go:94-103 | Every event except `Added` reacts, `Error` events included. A closed channel returns without a log line. `done` returns with a log line where the loop selects on it, and goes unheard where it does not. |
| StreamWatching.ReturnsOnlyOnCloseOrDone | configmap_watcher.go:93-104 | The loop has returned exactly when the result channel closed, or, where the loop selects on `done`, when `done` arrived. |
| StreamWatching.OneRunPerChange | configmap_watcher.go:98-100 | Before returning, the number of `Run` calls equals the number of events that are not `Added`. |
| StreamWatching.NothingAfterReturn | configmap_watcher.go:95-103 | Items after the loop returns change neither the log nor the `Run` count. |
| StreamWatching.SameLoopWithoutDone | secret_watcher.go:92-100 | On items in which `done` does not arrive, the configmap loop and the secret loop act alike. |
| ConfigmapWatching.ConfigmapWatcher.constructor | configmap_watcher.go:40-47 | The namespace and name are the decoded configmap string. There is no stream, no loop and no log. |
| ConfigmapWatching.ConfigmapWatcher.Watch | configmap_watcher.go:76-109 | A `Get` error is returned first, then a `Watch` error. The stream is kept and the loop started exactly when both succeed. |
| ConfigmapWatching.ConfigmapWatcher.OnEvent | configmap_watcher.go:54-66 | Exactly one `Run` call. The log gains the detected line for this configmap, then the lines of the logging rule. |
| ConfigmapWatching.ConfigmapWatcher.Close | configmap_watcher.go:69-73 | Sends `done`, then stops the stream, then returns nil. Without a stream, the stop is a nil-dereference panic that comes after `done` was sent. |
| ConfigmapWatching.ConfigmapWatcher.Receive | configmap_watcher.go:93-104 | One `select` turn appends that item's lines and `Run` call. The loop keeps running unless the channel closed or `done` arrived. |
| ConfigmapWatching.ConfigmapWatcher.Loop | configmap_watcher.go:91-106 | The loop writes exactly `Trace` of the items' actions and makes exactly `Reactions` of them in `Run` calls. It is running exactly when neither a close nor `done` was among the items. |
| ConfigmapWatching.ConfigmapWatcher.NewConfigmapWatcher | configmap_watcher.go:39-51 | Always returns a watcher, whose namespace and name are decoded from the configmap string. It has a stream and a running loop exactly when `Get` and `Watch` both succeeded. |
| SecretWatching.SecretWatcher.constructor | secret_watcher.go:40-47 | The namespace and name are the decoded secret string. There is no stream, no loop and no log. |
| SecretWatching.SecretWatcher.Watch | secret_watcher.go:75-105 | A `Get` error is returned first, then a `Watch` error. The stream is kept and the loop started exactly when both succeed. |
| SecretWatching.SecretWatcher.OnEvent | secret_watcher.go:54-66 | Exactly one `Run` call. The log gains the detected line for this secret, then the lines of the logging rule. |
| SecretWatching.SecretWatcher.Close | secret_watcher.go:69-72 | Only stops the stream and returns nil, or panics on a nil stream. Nothing is sent to the loop. |
| SecretWatching.SecretWatcher.Receive | secret_watcher.go:92-100 | One `select` turn appends that item's lines and `Run` call. Only a closed channel ends the loop, and `done` is ignored. |
| SecretWatching.SecretWatcher.Loop | secret_watcher.go:90-102 | The loop writes exactly `Trace` of the items' actions and makes exactly `Reactions` of them in `Run` calls. It is running exactly when the channel did not close among the items. |
| SecretWatching.SecretWatcher.NewSecretWatcher | secret_watcher.go:39-51 | Always returns a watcher, whose namespace and name are decoded from the secret string. It has a stream and a running loop exactly when `Get` and `Watch` both succeeded. |
| CommandRunning.BuildRequest | cmd_runner.go:59-72 | A POST to the `exec` sub-resource of `pods`. The container is both a parameter and the option. Stdout and stderr are on, TTY is off, and the command is unchanged. The request's name is the first segment of the pod string and its namespace the whole second segment: `name/namespace` is a prefix of the pod string followed by '/' or by its end. A pod string without '/' gives name "default" and the whole string as the namespace. |
| CommandRunning.ExecResult | cmd_runner.go:74-85 | A failed executor gives ("", "", err) and nothing is streamed. Otherwise the stream's error is returned, together with the captured output, both parts trimmed. |
| CommandRunning.Run | cmd_runner.go:57-86 | Fills two buffers from the stream and returns exactly `ExecResult`. |
| CommandRunning.OutputTrimmed | cmd_runner.go:85 | The returned stdout and stderr are the streamed text with only white space cut from the ends, and trimming them again changes nothing. |
| Sidecar.StartWatcher | main.go:105-118 | The watcher built is the one for the plan's target, on that target's value, with the given runner, fresh, with no runs and no log: a file watcher on the `--file` path, or a configmap or secret watcher on the namespace and name decoded from its flag. For `--file`, a `NewWatcher` or `Add` error is fatal with "error creating file watcher: " and that error, the `NewWatcher` error taking precedence; the watcher holds an open fsnotify handle, and its loop runs, exactly when `NewWatcher` succeeded, and it then watches the path's directory. For `--configmap` and `--secret`, start-up always goes on with the plan given; the watcher holds an unstopped watch stream, and its loop runs, exactly when `Get` and `Watch` both succeeded. Nothing has been sent on `done`. |
| CommandRunning.LaunchRequest | cmd_runner.go:45-72 | What `main` passes to `NewPodCmdRunner` (main.go:103) reaches the exec request: the command is the `--command` text split on ' ', the container parameter and option are `--container`, stdout and stderr are on and TTY off. In the POD_NAME/POD_NAMESPACE fallback with '/'-free values the request names pod POD_NAME in namespace POD_NAMESPACE; a '/'-free `--pod` value names pod "default" in the namespace it spells. |
| CommandRunning.PodStringResolves | cmd_runner.go:59 | For '/'-free parts, the pod string `first/second` resolves to pod `first` in namespace `second`. So the POD_NAME/POD_NAMESPACE fallback built at main.go:72 resolves to that pod, and an explicit `--pod ns/name` names pod `ns`. |

## Left out

- Flag parsing with pflag, the kubectl client configuration and the
  creation of the Kubernetes client (main.go:35-55, 89-96): foreign
  libraries. Flags and environment variables enter as plain strings, and
  `Configure` returns a fatal message instead of exiting.
- Signal handling and the end of `main` (main.go:98-101, 120-129).
  Waiting on `done` and calling `Close` once are left out, since these
  are process lifetime and concurrency.
- Real concurrency and channel semantics: goroutines, `select`'s random
  choice, and blocking on a full `done` buffer (a second `Close` can
  block). Each loop takes its items in one given order, and
  `doneSignalled` only records that `Close` has sent.
- The fsnotify OS watch: `NewWatcher`, `Add` and the handle's `Close`
  appear only through the errors they return. Events carry only their
  name and operation bits.
- The Kubernetes `Get`, `Watch` and field-selector construction
  (configmap_watcher.go:77-88, secret_watcher.go:76-87). Only whether
  each call fails is modelled. Event payloads are reduced to their type.
- The remote exec protocol (`NewExecutor`, `Stream`): the `Remote`
  oracle answers a request. The stream's output is written into each
  buffer in one piece.
- The text of log messages: log lines are tagged values. The "Watching
  file/configmap/secret" lines `main` prints before building a watcher
  (main.go:107, 113, 116) are not modelled.
- Byte buffers: output is read as a string of characters, with no UTF-8
  decoding.
- file_watcher_test.go: it writes a file and reads it back, and says
  nothing about the watcher's logic.
- Watching.LoggingRule: states which lines appear and in what order, by
  kind, not their formatted text.
