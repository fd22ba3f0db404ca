/**
  * The command runner: it executes the configured command in a container of
  * the target pod through the Kubernetes `exec` sub-resource and returns the
  * captured stdout and stderr, trimmed, with the error. The Kubernetes API
  * server is an oracle (`Remote`) that answers a request; what is built and
  * what is done with the answer are modelled.
  */
module CommandRunning {
  import opened Wrappers
  import opened GoStrings
  import opened Startup
  import opened Watching

  /** `PodCmdRunner`: the pod string, the container and the command's argv. */
  datatype PodCmdRunner = PodCmdRunner(podName: string, containerName: string, cmd: seq<string>)

  /** `PodExecOptions` as `Run` fills it in. */
  datatype ExecOptions = ExecOptions(container: string, command: seq<string>, stdout: bool, stderr: bool, tty: bool)

  /** The `POST` request to a pod's `exec` sub-resource. */
  datatype ExecRequest = ExecRequest(
    verb: string, resource: string, name: string, namespace: string, subResource: string,
    containerParam: string, options: ExecOptions)

  /** What `exec.Stream` delivers: the bytes written to stdout and stderr, and its error. */
  datatype Streamed = Streamed(stdout: string, stderr: string, err: Option<string>)

  /**
    * The API server, seen from `Run`: whether an executor can be created for a
    * request (an error if not), and what streaming that request delivers.
    */
  datatype Remote = Remote(newExecutor: ExecRequest -> Option<string>, stream: ExecRequest -> Streamed)

  /**
    * `NewPodCmdRunner`: a runner whose every `Run` executes `cmd` in
    * `containerName` of the pod that `podName` decodes to.
    */
  function NewPodCmdRunner(podName: string, containerName: string, cmd: seq<string>): (r: PodCmdRunner)
    ensures var req := BuildRequest(r);
      req.options.command == cmd && req.options.container == containerName &&
      req.containerParam == containerName &&
      (req.name, req.namespace) == ParseNamespaceName(podName)
  {
    PodCmdRunner(podName, containerName, cmd)
  }

  /**
    * The request `Run` builds. The pod string is decoded by `parseNamespaceName`
    * but bound as `name, namespace`: its first segment names the pod and its
    * second the namespace, and a string without '/' names pod "default" in the
    * namespace it spells.
    */
  function BuildRequest(r: PodCmdRunner): (req: ExecRequest)
    ensures req.verb == "POST" && req.resource == "pods" && req.subResource == "exec"
    ensures req.containerParam == r.containerName
    ensures req.options == ExecOptions(r.containerName, r.cmd, true, true, false)
    ensures '/' !in r.podName ==> req.name == "default" && req.namespace == r.podName
    ensures '/' in r.podName ==> '/' !in req.name && '/' !in req.namespace && req.name + "/" + req.namespace <= r.podName
    ensures '/' in r.podName ==>
      |req.name| + 1 + |req.namespace| == |r.podName| || r.podName[|req.name| + 1 + |req.namespace|] == '/'
  {
    var (name, namespace) := ParseNamespaceName(r.podName);
    ExecRequest("POST", "pods", name, namespace, "exec", r.containerName,
      ExecOptions(r.containerName, r.cmd, true, true, false))
  }

  /**
    * What `Run` returns against `remote`: `("", "", err)` when no executor can
    * be made, and otherwise the trimmed output with the stream's error, so a
    * failed stream still hands back what it captured.
    */
  function ExecResult(r: PodCmdRunner, remote: Remote): (res: RunResult)
    ensures IsTrimmed(res.stdout) && IsTrimmed(res.stderr)
    ensures remote.newExecutor(BuildRequest(r)).Some? ==>
      res == RunResult("", "", remote.newExecutor(BuildRequest(r)))
    ensures remote.newExecutor(BuildRequest(r)).None? ==>
      res.err == remote.stream(BuildRequest(r)).err
  {
    var req := BuildRequest(r);
    var e := remote.newExecutor(req);
    if e.Some? then RunResult("", "", e)
    else
      var s := remote.stream(req);
      RunResult(TrimSpace(s.stdout), TrimSpace(s.stderr), s.err)
  }

  /** A `bytes.Buffer` that a stream writes into. */
  class Buffer {
    var contents: string

    constructor ()
      ensures contents == ""
    {
      contents := "";
    }

    method Write(p: string)
      modifies this
      ensures contents == old(contents) + p
    {
      contents := contents + p;
    }
  }

  /**
    * `PodCmdRunner.Run`: build the request, create the executor (returning
    * early if that fails), let the stream fill the two buffers, and return
    * their trimmed contents with the stream's error.
    */
  method Run(r: PodCmdRunner, remote: Remote) returns (stdout: string, stderr: string, err: Option<string>)
    ensures RunResult(stdout, stderr, err) == ExecResult(r, remote)
  {
    var outBuf := new Buffer();
    var errBuf := new Buffer();
    var req := BuildRequest(r);
    var e := remote.newExecutor(req);
    if e.Some? {
      return "", "", e;
    }
    var s := remote.stream(req);
    outBuf.Write(s.stdout);
    errBuf.Write(s.stderr);
    assert outBuf.contents == s.stdout && errBuf.contents == s.stderr;
    return TrimSpace(outBuf.contents), TrimSpace(errBuf.contents), s.err;
  }

  /**
    * The streamed output comes back with only white space cut from its ends,
    * and trimming it again changes nothing.
    */
  lemma OutputTrimmed(r: PodCmdRunner, remote: Remote)
    requires remote.newExecutor(BuildRequest(r)).None?
    ensures var res := ExecResult(r, remote);
      var s := remote.stream(BuildRequest(r));
      CutFrom(res.stdout, s.stdout) && CutFrom(res.stderr, s.stderr) &&
      TrimSpace(res.stdout) == res.stdout && TrimSpace(res.stderr) == res.stderr
  {
    var s := remote.stream(BuildRequest(r));
    TrimSpaceIdempotent(s.stdout);
    TrimSpaceIdempotent(s.stderr);
    TrimSpaceCutsSpace(s.stdout);
    TrimSpaceCutsSpace(s.stderr);
  }

  /**
    * A pod string `first/second` of '/'-free parts names pod `first` in
    * namespace `second`. So the fallback `main` builds from POD_NAME and
    * POD_NAMESPACE resolves to that pod in that namespace, while a `--pod`
    * value written `namespace/name`, as the flag's help text asks, is read the
    * other way round: its namespace is taken as the pod's name.
    */
  lemma PodStringResolves(first: string, second: string, container: string, cmd: seq<string>)
    requires '/' !in first && '/' !in second
    ensures var req := BuildRequest(NewPodCmdRunner(first + "/" + second, container, cmd));
      req.name == first && req.namespace == second
  {
    ParseRoundTrip(first, second);
  }

  /**
    * What `main` hands `NewPodCmdRunner` reaches the exec request intact: the
    * command line split on ' ' is the command, `--container` is the container,
    * and in the environment fallback the request names pod POD_NAME in
    * namespace POD_NAMESPACE. The requirements are what `Configure` promises
    * of a plan it launches.
    */
  lemma LaunchRequest(f: Flags, env: Env, p: Plan)
    requires p.podName == (if f.pod != "" then f.pod else env.podName + "/" + env.podNamespace)
    requires p.container == f.container && p.argv == Split(f.command, ' ')
    ensures var req := BuildRequest(NewPodCmdRunner(p.podName, p.container, p.argv));
      req.options.command == Split(f.command, ' ') &&
      req.options.container == f.container && req.containerParam == f.container &&
      req.options.stdout && req.options.stderr && !req.options.tty &&
      (f.pod == "" && '/' !in env.podName && '/' !in env.podNamespace ==>
        req.name == env.podName && req.namespace == env.podNamespace) &&
      (f.pod != "" && '/' !in f.pod ==> req.name == "default" && req.namespace == f.pod)
  {
    if f.pod == "" && '/' !in env.podName && '/' !in env.podNamespace {
      PodStringResolves(env.podName, env.podNamespace, p.container, p.argv);
    }
  }
}
