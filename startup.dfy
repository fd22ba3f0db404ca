/**
  * The start-up decisions of the sidecar's `main`: which pod runs the
  * command, which single resource is watched, and how the command line is
  * cut into argv. Flag values and environment variables arrive as plain
  * strings; flag parsing itself and the Kubernetes client set-up are not
  * modelled.
  */
module Startup {
  import opened GoStrings

  /** `parseNamespaceName`: a `ns/name` string as (namespace, name). */
  function ParseNamespaceName(s: string): (r: (string, string))
    ensures '/' !in s ==> r == ("default", s)
    ensures '/' in s ==> '/' !in r.0 && '/' !in r.1
    ensures '/' in s ==> r.0 + "/" + r.1 <= s
    ensures '/' in s ==> |r.0| + 1 + |r.1| == |s| || s[|r.0| + 1 + |r.1|] == '/'
  {
    var parts := Split(s, '/');
    CountZero(s, '/');
    if |parts| == 1 then ("default", s)
    else
      FirstTwoSegments(s);
      (parts[0], parts[1])
  }

  /** The first two pieces of a string with a '/' are its first two segments. */
  lemma FirstTwoSegments(s: string)
    requires '/' in s
    ensures var parts := Split(s, '/');
      |parts| >= 2 && parts[0] + "/" + parts[1] <= s &&
      (|parts[0]| + 1 + |parts[1]| == |s| || s[|parts[0]| + 1 + |parts[1]|] == '/')
  {
    var parts := Split(s, '/');
    CountZero(s, '/');
    JoinSplit(s, '/');
    assert Join(parts, '/') == parts[0] + ['/'] + Join(parts[1..], '/');
    var tail := parts[1..];
    if |tail| == 1 {
      assert s == parts[0] + "/" + parts[1];
    } else {
      assert Join(tail, '/') == tail[0] + ['/'] + Join(tail[1..], '/');
      assert s == (parts[0] + "/" + parts[1]) + ("/" + Join(tail[1..], '/'));
    }
  }

  /** A namespace and a name free of '/' come back out of their joined form. */
  lemma ParseRoundTrip(ns: string, name: string)
    requires '/' !in ns && '/' !in name
    ensures ParseNamespaceName(ns + "/" + name) == (ns, name)
  {
    SplitJoin([ns, name], '/');
    assert Join([ns, name], '/') == ns + "/" + name;
  }

  /** Segments after the second are dropped. */
  lemma ParseDropsExtraSegments()
    ensures ParseNamespaceName("a/b/c") == ("a", "b")
  {
    var s := "a/b/c";
    var r := ParseNamespaceName(s);
    var p := r.0 + "/" + r.1;
    assert p == s[..|p|];
    assert s[|r.0|] == p[|r.0|] == '/';
    assert forall j :: 0 <= j < |r.0| ==> s[j] == p[j] == r.0[j];
    assert |r.0| == 1;
    assert forall j :: 0 <= j < |r.1| ==> s[j + 2] == p[j + 2] == r.1[j];
    assert |r.1| == 1;
    assert r.0 == s[..1] == "a" && r.1 == s[2..3] == "b";
  }

  /** The command-line flags `main` reads. */
  datatype Flags = Flags(
    pod: string, container: string, file: string, configmap: string, secret: string, command: string)

  /** The downward-API environment variables POD_NAME and POD_NAMESPACE. */
  datatype Env = Env(podName: string, podNamespace: string)

  /** The single resource to watch, as given on the command line. */
  datatype WatchTarget = WatchFile(path: string) | WatchConfigMap(ref: string) | WatchSecret(ref: string)

  /** What `main` goes on to build: the command runner's arguments and the watcher. */
  datatype Plan = Plan(podName: string, container: string, argv: seq<string>, target: WatchTarget)

  /** `main` either stops with a fatal log message or builds the plan. */
  datatype Outcome = Fatal(message: string) | Launch(plan: Plan)

  const NoCommand := "Please specify --command"
  const NoPodName := "You must specifiy the POD_NAME environment variable"
  const NoPodNamespace := "You must specifiy the POD_NAMESPACE environment variable"
  const Exclusive := "--file, --configmap and --secret options are mutually exclusive"
  const NoTarget := "Please specify the flag --file, --configmap or --secret"

  /** The three target flags, in the order `main` scans them. */
  function TargetFlags(f: Flags): seq<string>
  {
    [f.file, f.configmap, f.secret]
  }

  /** How many of the target flags are non-empty. */
  function Activated(f: Flags): nat
  {
    |set i | 0 <= i < 3 && TargetFlags(f)[i] != ""|
  }

  /** The activated count, flag by flag. */
  lemma ActivatedCount(f: Flags)
    ensures Activated(f) ==
      (if f.file != "" then 1 else 0) + (if f.configmap != "" then 1 else 0) + (if f.secret != "" then 1 else 0)
  {
    var fs := TargetFlags(f);
    var a := if f.file != "" then {0} else {};
    var b := if f.configmap != "" then {1} else {};
    var c := if f.secret != "" then {2} else {};
    assert (set i | 0 <= i < 3 && fs[i] != "") == a + b + c;
  }

  /** `main`'s counting loop: how many of `flags` are non-empty. */
  method CountActivated(flags: seq<string>) returns (activated: nat)
    ensures activated == |set j | 0 <= j < |flags| && flags[j] != ""|
  {
    activated := 0;
    var i := 0;
    while i < |flags|
      invariant 0 <= i <= |flags|
      invariant activated == |set j | 0 <= j < i && flags[j] != ""|
    {
      ghost var before := set j | 0 <= j < i && flags[j] != "";
      if flags[i] != "" {
        assert (set j | 0 <= j < i + 1 && flags[j] != "") == before + {i};
        activated := activated + 1;
      } else {
        assert (set j | 0 <= j < i + 1 && flags[j] != "") == before;
      }
      i := i + 1;
    }
  }

  /** The pod given by `--pod`, or else the one the environment names. */
  predicate PodKnown(f: Flags, env: Env)
  {
    f.pod != "" || (env.podName != "" && env.podNamespace != "")
  }

  /**
    * The validation and dispatch in `main`: the command check first, then the
    * pod fallback, then the count of target flags, then the choice of watcher
    * in the order file, configmap, secret.
    */
  method Configure(f: Flags, env: Env) returns (o: Outcome)
    ensures f.command == "" ==> o == Fatal(NoCommand)
    ensures f.command != "" && f.pod == "" && env.podName == "" ==> o == Fatal(NoPodName)
    ensures f.command != "" && f.pod == "" && env.podName != "" && env.podNamespace == "" ==>
      o == Fatal(NoPodNamespace)
    ensures f.command != "" && PodKnown(f, env) && Activated(f) >= 2 ==> o == Fatal(Exclusive)
    ensures f.command != "" && PodKnown(f, env) && Activated(f) == 0 ==> o == Fatal(NoTarget)
    ensures o.Launch? <==> f.command != "" && PodKnown(f, env) && Activated(f) == 1
    ensures o.Launch? ==>
      o.plan.podName == (if f.pod != "" then f.pod else env.podName + "/" + env.podNamespace) &&
      o.plan.container == f.container &&
      o.plan.argv == Split(f.command, ' ')
    ensures o.Launch? ==>
      (f.file != "" <==> o.plan.target == WatchFile(f.file)) &&
      (f.configmap != "" <==> o.plan.target == WatchConfigMap(f.configmap)) &&
      (f.secret != "" <==> o.plan.target == WatchSecret(f.secret))
  {
    if f.command == "" {
      return Fatal(NoCommand);
    }

    var podName := f.pod;
    if podName == "" {
      if env.podName == "" {
        return Fatal(NoPodName);
      }
      if env.podNamespace == "" {
        return Fatal(NoPodNamespace);
      }
      podName := env.podName + "/" + env.podNamespace;
    }

    var activated := CountActivated(TargetFlags(f));
    ActivatedCount(f);
    if activated >= 2 {
      return Fatal(Exclusive);
    }
    if activated == 0 {
      return Fatal(NoTarget);
    }

    var argv := Split(f.command, ' ');
    var target;
    if f.file != "" {
      target := WatchFile(f.file);
    } else if f.configmap != "" {
      target := WatchConfigMap(f.configmap);
    } else {
      target := WatchSecret(f.secret);
    }
    o := Launch(Plan(podName, f.container, argv, target));
  }
}
