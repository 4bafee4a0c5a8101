/**
 The package-level iscsiadm functions of pkg/iscsi/iscsiadm.go. They do what the admin
 object of pkg/node/iscsi/iscsiadm.go does, without an object: each function takes the
 command runner and returns, beside its Go results, the iscsiadm commands it issued. The
 parser and the specification functions are those of NodeIscsi, since the two files share
 that code line for line.
 */
module PkgIscsi {
  import opened Wrappers
  import opened Strings
  import opened NodeIscsi

  /** iscsiCmd: one iscsiadm invocation. */
  method IscsiCmd(run: Runner, args: seq<string>) returns (output: string, err: Option<Error>, cmds: seq<seq<string>>)
    ensures cmds == [args]
    ensures output == run(args).output
    ensures err.None? <==> run(args).failure.None?
    ensures err.Some? ==> err.value == CmdFailed(run(args).failure.value)
  {
    var r := run(args);
    output, err, cmds := r.output, ErrorOf(r), [args];
  }

  method Login(run: Runner, iqn: string, portal: string) returns (err: Option<Error>, cmds: seq<seq<string>>)
    ensures cmds == [LoginArgs(iqn, portal)]
    ensures err.None? <==> run(LoginArgs(iqn, portal)).failure.None?
    ensures err == ErrorOf(run(LoginArgs(iqn, portal)))
  {
    var _, e, c := IscsiCmd(run, LoginArgs(iqn, portal));
    err, cmds := e, c;
  }

  method Logout(run: Runner, iqn: string, portal: string) returns (err: Option<Error>, cmds: seq<seq<string>>)
    ensures cmds == [LogoutArgs(iqn, portal)]
    ensures err.None? <==> run(LogoutArgs(iqn, portal)).failure.None?
    ensures err == ErrorOf(run(LogoutArgs(iqn, portal)))
  {
    var _, e, c := IscsiCmd(run, LogoutArgs(iqn, portal));
    err, cmds := e, c;
  }

  method DeleteDBEntry(run: Runner, iqn: string) returns (err: Option<Error>, cmds: seq<seq<string>>)
    ensures cmds == [DeleteArgs(iqn)]
    ensures err.None? <==> run(DeleteArgs(iqn)).failure.None?
    ensures err == ErrorOf(run(DeleteArgs(iqn)))
  {
    var _, e, c := IscsiCmd(run, DeleteArgs(iqn));
    err, cmds := e, c;
  }

  /** Discover: the runner's error and no targets, or the targets of its output. */
  method Discover(run: Runner, portal: string) returns (targets: seq<Target>, err: Option<Error>, cmds: seq<seq<string>>)
    requires Discoverable(run, portal)
    ensures cmds == [DiscoverArgs(portal)]
    ensures err.None? <==> DiscoverResult(run, portal).Discovered?
    ensures err.Some? ==> targets == [] && err.value == DiscoverResult(run, portal).err
    ensures err.None? ==> targets == DiscoverResult(run, portal).targets
  {
    var output, e, c := IscsiCmd(run, DiscoverArgs(portal));
    cmds := c;
    if e.Some? {
      return [], e, cmds;
    }
    targets := ExtractIscsiTargets(output);
    err := None;
  }

  /** The login loop of DiscoverAndLogin over the discovered targets. */
  method LoginAll(run: Runner, targets: seq<Target>) returns (err: Option<Error>, cmds: seq<seq<string>>)
    ensures cmds == LoginCmds(targets)
    ensures err == LoginTargets(run, targets).err
  {
    LoginTargetsMeaning(run, targets);
    err, cmds := None, [];
    var i := 0;
    while i < |targets|
      invariant 0 <= i <= |targets|
      invariant cmds == LoginTargets(run, targets[..i]).cmds
      invariant err == LoginTargets(run, targets[..i]).err
    {
      assert targets[..i + 1][..i] == targets[..i];
      var t := targets[i];
      var e, c := Login(run, t.iqn, t.portal + ":" + t.port);
      cmds := cmds + c;
      if e.Some? && err.None? {
        err := e;
      }
      i := i + 1;
    }
    FullPrefix(targets);
  }

  /** The logout loop of DiscoverAndLogout: the node record of a target is deleted only
      after its logout succeeded, and the deletion's error is dropped. */
  method LogoutAll(run: Runner, targets: seq<Target>) returns (err: Option<Error>, cmds: seq<seq<string>>)
    ensures cmds == LogoutTargets(run, targets).cmds
    ensures err == LogoutTargets(run, targets).err
  {
    err, cmds := None, [];
    var i := 0;
    while i < |targets|
      invariant 0 <= i <= |targets|
      invariant cmds == LogoutTargets(run, targets[..i]).cmds
      invariant err == LogoutTargets(run, targets[..i]).err
    {
      assert targets[..i + 1][..i] == targets[..i];
      var t := targets[i];
      var e, c := Logout(run, t.iqn, t.portal + ":" + t.port);
      cmds := cmds + c;
      if e.None? {
        var _, d := DeleteDBEntry(run, t.iqn);
        cmds := cmds + d;
      }
      if e.Some? && err.None? {
        err := e;
      }
      i := i + 1;
    }
    FullPrefix(targets);
  }

  method DiscoverAndLogin(run: Runner, portal: string) returns (err: Option<Error>, cmds: seq<seq<string>>)
    requires Discoverable(run, portal)
    ensures cmds == PortalStep(run, Action.Login, portal).cmds
    ensures err == PortalStep(run, Action.Login, portal).err
  {
    var targets, e, c := Discover(run, portal);
    if e.Some? {
      return e, c;
    }
    var e2, c2 := LoginAll(run, targets);
    LoginTargetsMeaning(run, targets);
    err, cmds := e2, c + c2;
  }

  method DiscoverAndLogout(run: Runner, portal: string) returns (err: Option<Error>, cmds: seq<seq<string>>)
    requires Discoverable(run, portal)
    ensures cmds == PortalStep(run, Action.Logout, portal).cmds
    ensures err == PortalStep(run, Action.Logout, portal).err
  {
    var targets, e, c := Discover(run, portal);
    if e.Some? {
      return e, c;
    }
    var e2, c2 := LogoutAll(run, targets);
    err, cmds := e2, c + c2;
  }

  method DiscoverAndLoginPortals(run: Runner, portals: seq<string>) returns (err: Option<Error>, cmds: seq<seq<string>>)
    requires AllDiscoverable(run, portals)
    ensures cmds == PortalsTally(run, Action.Login, portals).cmds
    ensures err == PortalsError(run, Action.Login, portals)
  {
    ghost var steps: seq<Steps> := [];
    var first: Option<Error> := None;
    var failed: seq<string> := [];
    cmds := [];
    var i := 0;
    while i < |portals|
      invariant 0 <= i <= |portals| && |steps| == i
      invariant forall k {:trigger PortalStep(run, Action.Login, portals[k])} ::
                  0 <= k < i ==> steps[k] == PortalStep(run, Action.Login, portals[k])
      invariant cmds == TallyOver(portals[..i], steps).cmds
      invariant first == TallyOver(portals[..i], steps).first
      invariant failed == TallyOver(portals[..i], steps).failed
    {
      var e, c := DiscoverAndLogin(run, portals[i]);
      ghost var s := PortalStep(run, Action.Login, portals[i]);
      TallyExtend(portals, steps, s, i);
      steps := steps + [s];
      cmds := cmds + c;
      if e.Some? {
        failed := failed + [portals[i]];
        if first.None? {
          first := e;
        }
      }
      i := i + 1;
    }
    FullPrefix(portals);
    StepsAreTheTally(run, Action.Login, portals, steps);
    if first.Some? {
      var fp := Join(failed, ", ");
      return Some(WithMessage(first.value, "Failed to login portals " + fp)), cmds;
    }
    err := None;
  }

  method DiscoverAndLogoutPortals(run: Runner, portals: seq<string>) returns (err: Option<Error>, cmds: seq<seq<string>>)
    requires AllDiscoverable(run, portals)
    ensures cmds == PortalsTally(run, Action.Logout, portals).cmds
    ensures err == PortalsError(run, Action.Logout, portals)
  {
    ghost var steps: seq<Steps> := [];
    var first: Option<Error> := None;
    var failed: seq<string> := [];
    cmds := [];
    var i := 0;
    while i < |portals|
      invariant 0 <= i <= |portals| && |steps| == i
      invariant forall k {:trigger PortalStep(run, Action.Logout, portals[k])} ::
                  0 <= k < i ==> steps[k] == PortalStep(run, Action.Logout, portals[k])
      invariant cmds == TallyOver(portals[..i], steps).cmds
      invariant first == TallyOver(portals[..i], steps).first
      invariant failed == TallyOver(portals[..i], steps).failed
    {
      var e, c := DiscoverAndLogout(run, portals[i]);
      ghost var s := PortalStep(run, Action.Logout, portals[i]);
      TallyExtend(portals, steps, s, i);
      steps := steps + [s];
      cmds := cmds + c;
      if e.Some? {
        failed := failed + [portals[i]];
        if first.None? {
          first := e;
        }
      }
      i := i + 1;
    }
    FullPrefix(portals);
    StepsAreTheTally(run, Action.Logout, portals, steps);
    if first.Some? {
      var fp := Join(failed, ", ");
      return Some(WithMessage(first.value, "Failed to logout portals " + fp)), cmds;
    }
    err := None;
  }
}
