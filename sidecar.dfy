/**
  * The last step of `main`'s start-up: building the watcher the plan names.
  * Only the file watcher's construction error stops the process; the
  * configmap and secret constructors report none, so `main` goes on with a
  * watcher whether or not it watches anything.
  */
module Sidecar {
  import opened Wrappers
  import opened GoStrings
  import opened Startup
  import opened Watching
  import opened FileWatching
  import opened ConfigmapWatching
  import opened SecretWatching

  const FileWatcherFailed := "error creating file watcher: "

  /** The watcher `main` holds as its `Watcher` interface value. */
  datatype Started =
    | StartedFile(fw: FileWatcher)
    | StartedConfigMap(cw: ConfigmapWatcher)
    | StartedSecret(sw: SecretWatcher)

  /**
    * The dispatch in `main`: the watcher for the plan's target, built on that
    * target with `runner`. The error oracles stand for the calls the
    * constructors make: fsnotify's `NewWatcher` and `Add`, and the Kubernetes
    * `Get` and `Watch`.
    */
  method StartWatcher(plan: Plan, runner: Runner, newErr: Option<string>, addErr: Option<string>,
                      getErr: Option<string>, watchErr: Option<string>)
    returns (o: Outcome, w: Started)
    ensures plan.target.WatchFile? ==>
      w.StartedFile? && fresh(w.fw) && w.fw.file == plan.target.path && w.fw.runner == runner &&
      w.fw.runs == 0 && w.fw.log == [] && (w.fw.running <==> newErr.None?) &&
      w.fw.hasHandle == w.fw.handleOpen == newErr.None? && !w.fw.doneSignalled &&
      (w.fw.running ==> w.fw.dir == PathSplit(plan.target.path).0)
    ensures plan.target.WatchFile? ==>
      (o.Fatal? <==> newErr.Some? || addErr.Some?) &&
      (newErr.Some? ==> o == Fatal(FileWatcherFailed + newErr.value)) &&
      (newErr.None? && addErr.Some? ==> o == Fatal(FileWatcherFailed + addErr.value))
    ensures plan.target.WatchConfigMap? ==>
      w.StartedConfigMap? && fresh(w.cw) &&
      (w.cw.namespace, w.cw.name) == ParseNamespaceName(plan.target.ref) && w.cw.runner == runner &&
      w.cw.runs == 0 && w.cw.log == [] && (w.cw.running <==> getErr.None? && watchErr.None?) &&
      w.cw.hasStream == w.cw.running && !w.cw.streamStopped && !w.cw.doneSignalled
    ensures plan.target.WatchSecret? ==>
      w.StartedSecret? && fresh(w.sw) &&
      (w.sw.namespace, w.sw.name) == ParseNamespaceName(plan.target.ref) && w.sw.runner == runner &&
      w.sw.runs == 0 && w.sw.log == [] && (w.sw.running <==> getErr.None? && watchErr.None?) &&
      w.sw.hasStream == w.sw.running && !w.sw.streamStopped
    ensures !plan.target.WatchFile? ==> o == Launch(plan)
    ensures o.Launch? ==> o.plan == plan
  {
    match plan.target {
      case WatchFile(path) =>
        var fw, err := FileWatcher.NewFileWatcher(path, runner, newErr, addErr);
        w := StartedFile(fw);
        if err.Some? {
          return Fatal(FileWatcherFailed + err.value), w;
        }
      case WatchConfigMap(ref) =>
        var cw := ConfigmapWatcher.NewConfigmapWatcher(ref, runner, getErr, watchErr);
        w := StartedConfigMap(cw);
      case WatchSecret(ref) =>
        var sw := SecretWatcher.NewSecretWatcher(ref, runner, getErr, watchErr);
        w := StartedSecret(sw);
    }
    o := Launch(plan);
  }
}
