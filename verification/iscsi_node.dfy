/**
 The iscsiadm driver of pkg/node/iscsi/iscsiadm.go: discovery of the targets a portal
 offers, login to or logout from each of them, and the same over a list of portals. Every
 iscsiadm invocation goes through one command runner; here the runner is a fixed function
 from the argument list to the command's output and error, and the admin object keeps the
 list of commands it has issued.
 */
module NodeIscsi {
  import opened Wrappers
  import opened Strings

  /** One target of a `sendtargets` discovery. */
  datatype Target = Target(iqn: string, portal: string, port: string)

  /** An error value: the runner's own, or one wrapped by errors.WithMessage. */
  datatype Error = CmdFailed(msg: string) | WithMessage(cause: Error, msg: string)

  /** What one iscsiadm invocation gives back: its output and, when it failed, the message. */
  datatype CmdResult = CmdResult(output: string, failure: Option<string>)

  type Runner = seq<string> -> CmdResult

  function ErrorOf(r: CmdResult): Option<Error> {
    if r.failure.Some? then Some(CmdFailed(r.failure.value)) else None
  }

  function LoginArgs(iqn: string, portal: string): seq<string> {
    ["--mode", "node", "--targetname", iqn, "--portal", portal, "--login"]
  }

  function LogoutArgs(iqn: string, portal: string): seq<string> {
    ["--mode", "node", "--targetname", iqn, "--portal", portal, "--logout"]
  }

  function DiscoverArgs(portal: string): seq<string> {
    ["--mode", "discoverydb", "--type", "sendtargets", "--portal", portal, "--discover"]
  }

  function DeleteArgs(iqn: string): seq<string> {
    ["--mode", "node", "--targetname", iqn, "-o", "delete"]
  }

  /** The `<portal>:<port>` a target is logged in or out at. */
  function Address(t: Target): string {
    t.portal + ":" + t.port
  }

  // ---------------------------------------------------------------------------------
  // The sendtargets parser

  /** A line the parser can take: unless it is skipped (it does not split into exactly two
      fields on a space), the part of its first field before the first `,` holds a `:`.
      On any other line the parser indexes past the end of a slice and panics. */
  predicate LineParsable(line: string) {
    var fields := Split(line, ' ');
    |fields| != 2 || |Split(Split(fields[0], ',')[0], ':')| >= 2
  }

  predicate LinesParsable(lines: seq<string>)
    decreases |lines|
  {
    |lines| == 0 || (LinesParsable(lines[..|lines| - 1]) && LineParsable(lines[|lines| - 1]))
  }

  predicate RecordParsable(record: string) {
    LinesParsable(Split(record, '\n'))
  }

  /** Lines are parsable exactly when each of them is. */
  lemma {:induction false} LinesParsableEach(lines: seq<string>)
    ensures LinesParsable(lines) <==> forall k :: 0 <= k < |lines| ==> LineParsable(lines[k])
    decreases |lines|
  {
    if |lines| > 0 {
      var init := lines[..|lines| - 1];
      LinesParsableEach(init);
      assert forall k :: 0 <= k < |init| ==> lines[k] == init[k];
    }
  }

  /** One line of `<portal>:<port>,<tpgt> <iqn>`: None when the line is skipped. */
  function ParseLine(line: string): Option<Target>
    requires LineParsable(line)
  {
    var fields := Split(line, ' ');
    if |fields| != 2 then None
    else
      var portalAndPort := Split(Split(fields[0], ',')[0], ':');
      Some(Target(fields[1], portalAndPort[0], portalAndPort[1]))
  }

  function TargetsOf(lines: seq<string>): (ts: seq<Target>)
    requires LinesParsable(lines)
    ensures |ts| <= |lines|
    decreases |lines|
  {
    if |lines| == 0 then []
    else
      var prev := TargetsOf(lines[..|lines| - 1]);
      match ParseLine(lines[|lines| - 1])
      case Some(t) => prev + [t]
      case None => prev
  }

  /** extractIscsiTargets: the targets of the lines that split into two fields, in order. */
  function ExtractTargets(record: string): seq<Target>
    requires RecordParsable(record)
  {
    TargetsOf(Split(record, '\n'))
  }

  /** extractIscsiTargets, with its append loop. */
  method ExtractIscsiTargets(record: string) returns (targets: seq<Target>)
    requires RecordParsable(record)
    ensures targets == ExtractTargets(record)
  {
    var lines := Split(record, '\n');
    targets := [];
    var i := 0;
    while i < |lines|
      invariant 0 <= i <= |lines|
      invariant LinesParsable(lines[..i]) && targets == TargetsOf(lines[..i])
    {
      LinesParsableEach(lines);
      LinesParsableEach(lines[..i + 1]);
      assert lines[..i + 1][..i] == lines[..i];
      var fields := Split(lines[i], ' ');
      if |fields| == 2 {
        var portalAndPort := Split(Split(fields[0], ',')[0], ':');
        targets := targets + [Target(fields[1], portalAndPort[0], portalAndPort[1])];
      }
      i := i + 1;
    }
    assert lines[..i] == lines;
  }

  /** Every extracted target comes from a line of the record. */
  lemma {:induction false} TargetsFromLines(lines: seq<string>)
    requires LinesParsable(lines)
    ensures forall t :: t in TargetsOf(lines) ==>
              exists k :: 0 <= k < |lines| && LineParsable(lines[k]) && ParseLine(lines[k]) == Some(t)
    decreases |lines|
  {
    if |lines| > 0 {
      var init := lines[..|lines| - 1];
      TargetsFromLines(init);
      forall t | t in TargetsOf(lines)
        ensures exists k :: 0 <= k < |lines| && LineParsable(lines[k]) && ParseLine(lines[k]) == Some(t)
      {
        if t in TargetsOf(init) {
          var k :| 0 <= k < |init| && LineParsable(init[k]) && ParseLine(init[k]) == Some(t);
          assert lines[k] == init[k];
        }
      }
    }
  }

  /** The line iscsiadm prints for a target, with target portal group 1. */
  function TargetLine(t: Target): string {
    Address(t) + ",1 " + t.iqn
  }

  /** A target whose fields hold none of the separators the parser splits on. */
  predicate Printable(t: Target) {
    && ' ' !in t.portal && '\n' !in t.portal && ':' !in t.portal && ',' !in t.portal
    && ' ' !in t.port && '\n' !in t.port && ':' !in t.port && ',' !in t.port
    && ' ' !in t.iqn && '\n' !in t.iqn
  }

  function Render(ts: seq<Target>): string {
    Join(seq(|ts|, i requires 0 <= i < |ts| => TargetLine(ts[i])), "\n")
  }

  /** Parsing the line printed for a target gives the target back. */
  lemma ParseTargetLine(t: Target)
    requires Printable(t)
    ensures LineParsable(TargetLine(t)) && ParseLine(TargetLine(t)) == Some(t)
  {
    var first := Address(t) + ",1";
    assert TargetLine(t) == first + [' '] + t.iqn;
    SplitAtOne(first, t.iqn, ' ');
    assert first == Address(t) + [','] + "1";
    SplitAtOne(Address(t), "1", ',');
    assert Address(t) == t.portal + [':'] + t.port;
    SplitAtOne(t.portal, t.port, ':');
  }

  /** Rendering targets as sendtargets output and parsing it gives the targets back. */
  lemma {:induction false} ParseRender(ts: seq<Target>)
    requires forall i :: 0 <= i < |ts| ==> Printable(ts[i])
    ensures RecordParsable(Render(ts)) && ExtractTargets(Render(ts)) == ts
  {
    var lines := seq(|ts|, i requires 0 <= i < |ts| => TargetLine(ts[i]));
    if |ts| == 0 {
      assert Split("", '\n') == [""];
    } else {
      forall k | 0 <= k < |lines| ensures '\n' !in lines[k] {
        assert lines[k] == Address(ts[k]) + ",1 " + ts[k].iqn;
      }
      SplitJoin(lines, '\n');
      forall k | 0 <= k < |lines| ensures LineParsable(lines[k]) && ParseLine(lines[k]) == Some(ts[k]) {
        ParseTargetLine(ts[k]);
      }
      ParseLines(ts, lines);
    }
  }

  lemma {:induction false} ParseLines(ts: seq<Target>, lines: seq<string>)
    requires |lines| == |ts|
    requires forall k :: 0 <= k < |lines| ==> LineParsable(lines[k]) && ParseLine(lines[k]) == Some(ts[k])
    ensures LinesParsable(lines) && TargetsOf(lines) == ts
    decreases |ts|
  {
    LinesParsableEach(lines);
    if |ts| > 0 {
      var init := lines[..|lines| - 1];
      var prev := ts[..|ts| - 1];
      assert forall k :: 0 <= k < |init| ==> init[k] == lines[k] && prev[k] == ts[k];
      ParseLines(prev, init);
      assert ParseLine(lines[|lines| - 1]) == Some(ts[|ts| - 1]);
      assert ts == prev + [ts[|ts| - 1]];
    }
  }

  /** A line that is not `<address> <iqn>`, such as an iscsiadm message, is skipped. */
  lemma MessageLineSkipped(line: string)
    requires Count(line, ' ') != 1
    ensures LineParsable(line) && ParseLine(line) == None
  {
    SplitLength(line, ' ');
  }

  /** The unit test's target prints as the unit test's record. */
  lemma TestTargetLine(iqn: string, portal: string, port: string, record: string)
    requires iqn == "iqn.xxx" && portal == "1.2.3.4" && port == "3260"
    requires record == "1.2.3.4:3260,1 iqn.xxx"
    ensures record == TargetLine(Target(iqn, portal, port))
  {
  }

  /** The unit test's target holds no separator. */
  lemma TestTargetPrintable(iqn: string, portal: string, port: string)
    requires iqn == "iqn.xxx" && portal == "1.2.3.4" && port == "3260"
    ensures Printable(Target(iqn, portal, port))
  {
  }

  /** The discovery record of the unit test, `1.2.3.4:3260,1 iqn.xxx`, yields its one
      target. */
  lemma DiscoverTestRecord(iqn: string, portal: string, port: string, record: string)
    requires iqn == "iqn.xxx" && portal == "1.2.3.4" && port == "3260"
    requires record == "1.2.3.4:3260,1 iqn.xxx"
    ensures RecordParsable(record) && ExtractTargets(record) == [Target(iqn, portal, port)]
  {
    var t := Target(iqn, portal, port);
    TestTargetLine(iqn, portal, port, record);
    TestTargetPrintable(iqn, portal, port);
    ParseRender([t]);
    assert Render([t]) == TargetLine(t);
  }

  // ---------------------------------------------------------------------------------
  // Discovery, login and logout as specification functions over the runner

  /** Discover's result: the targets, or the runner's error. */
  datatype Discovery = Discovered(targets: seq<Target>) | DiscoverFailed(err: Error)

  /** The runner either fails discovery at the portal or prints a record the parser takes. */
  predicate Discoverable(run: Runner, portal: string) {
    run(DiscoverArgs(portal)).failure.Some? || RecordParsable(run(DiscoverArgs(portal)).output)
  }

  function DiscoverResult(run: Runner, portal: string): Discovery
    requires Discoverable(run, portal)
  {
    var r := run(DiscoverArgs(portal));
    if r.failure.Some? then DiscoverFailed(CmdFailed(r.failure.value))
    else Discovered(ExtractTargets(r.output))
  }

  /** The commands a step issued and the error it returns. */
  datatype Steps = Steps(cmds: seq<seq<string>>, err: Option<Error>)

  /** The first error of the two, as `if err == nil { err = e }` keeps it. */
  function FirstError(a: Option<Error>, b: Option<Error>): Option<Error> {
    if a.Some? then a else b
  }

  /** The login loop of DiscoverAndLogin: every target is tried, the first error kept. */
  function LoginTargets(run: Runner, ts: seq<Target>): Steps
    decreases |ts|
  {
    if |ts| == 0 then Steps([], None)
    else
      var prev := LoginTargets(run, ts[..|ts| - 1]);
      var t := ts[|ts| - 1];
      var args := LoginArgs(t.iqn, Address(t));
      Steps(prev.cmds + [args], FirstError(prev.err, ErrorOf(run(args))))
  }

  /** The logout loop of DiscoverAndLogout: after a successful logout the target's node
      record is deleted, whatever that deletion returns; the first logout error is kept. */
  function LogoutTargets(run: Runner, ts: seq<Target>): Steps
    decreases |ts|
  {
    if |ts| == 0 then Steps([], None)
    else
      var prev := LogoutTargets(run, ts[..|ts| - 1]);
      var t := ts[|ts| - 1];
      var args := LogoutArgs(t.iqn, Address(t));
      var e := ErrorOf(run(args));
      Steps(prev.cmds + [args] + (if e.None? then [DeleteArgs(t.iqn)] else []), FirstError(prev.err, e))
  }

  /** Command `j` is the first of `cmds` that fails. */
  predicate FirstFailedAt(run: Runner, cmds: seq<seq<string>>, j: int) {
    && 0 <= j < |cmds|
    && run(cmds[j]).failure.Some?
    && forall i :: 0 <= i < j ==> run(cmds[i]).failure.None?
  }

  function LoginCmds(ts: seq<Target>): seq<seq<string>> {
    seq(|ts|, i requires 0 <= i < |ts| => LoginArgs(ts[i].iqn, Address(ts[i])))
  }

  function LogoutCmds(ts: seq<Target>): seq<seq<string>> {
    seq(|ts|, i requires 0 <= i < |ts| => LogoutArgs(ts[i].iqn, Address(ts[i])))
  }

  /** Every target gets one login, in order; the result is nil exactly when all of them
      succeed, and otherwise the error of the first that failed. */
  lemma {:induction false} LoginTargetsMeaning(run: Runner, ts: seq<Target>)
    ensures LoginTargets(run, ts).cmds == LoginCmds(ts)
    ensures LoginTargets(run, ts).err.None? <==>
            forall i :: 0 <= i < |ts| ==> run(LoginCmds(ts)[i]).failure.None?
    ensures LoginTargets(run, ts).err.Some? ==>
              exists j :: FirstFailedAt(run, LoginCmds(ts), j) &&
                          LoginTargets(run, ts).err == ErrorOf(run(LoginCmds(ts)[j]))
    decreases |ts|
  {
    if |ts| > 0 {
      var init := ts[..|ts| - 1];
      LoginTargetsMeaning(run, init);
      assert LoginCmds(ts) == LoginCmds(init) + [LoginCmds(ts)[|ts| - 1]];
      if LoginTargets(run, init).err.Some? {
        var j :| FirstFailedAt(run, LoginCmds(init), j) &&
                 LoginTargets(run, init).err == ErrorOf(run(LoginCmds(init)[j]));
        assert FirstFailedAt(run, LoginCmds(ts), j);
      } else if LoginTargets(run, ts).err.Some? {
        assert FirstFailedAt(run, LoginCmds(ts), |ts| - 1);
      }
    }
  }

  /** Logout error: nil exactly when every logout succeeds, otherwise the first logout's
      error; the deletions' own errors are ignored. */
  lemma {:induction false} LogoutTargetsError(run: Runner, ts: seq<Target>)
    ensures LogoutTargets(run, ts).err.None? <==>
            forall i :: 0 <= i < |ts| ==> run(LogoutCmds(ts)[i]).failure.None?
    ensures LogoutTargets(run, ts).err.Some? ==>
              exists j :: FirstFailedAt(run, LogoutCmds(ts), j) &&
                          LogoutTargets(run, ts).err == ErrorOf(run(LogoutCmds(ts)[j]))
    decreases |ts|
  {
    if |ts| > 0 {
      var init := ts[..|ts| - 1];
      LogoutTargetsError(run, init);
      assert LogoutCmds(ts) == LogoutCmds(init) + [LogoutCmds(ts)[|ts| - 1]];
      if LogoutTargets(run, init).err.Some? {
        var j :| FirstFailedAt(run, LogoutCmds(init), j) &&
                 LogoutTargets(run, init).err == ErrorOf(run(LogoutCmds(init)[j]));
        assert FirstFailedAt(run, LogoutCmds(ts), j);
      } else if LogoutTargets(run, ts).err.Some? {
        assert FirstFailedAt(run, LogoutCmds(ts), |ts| - 1);
      }
    }
  }

  /** Every target gets a logout. */
  lemma {:induction false} LogoutTargetsIssued(run: Runner, ts: seq<Target>)
    ensures forall i :: 0 <= i < |ts| ==> LogoutCmds(ts)[i] in LogoutTargets(run, ts).cmds
    decreases |ts|
  {
    if |ts| > 0 {
      var init := ts[..|ts| - 1];
      LogoutTargetsIssued(run, init);
      assert forall i :: 0 <= i < |init| ==> LogoutCmds(ts)[i] == LogoutCmds(init)[i];
    }
  }

  /** The node record of `iqn` is deleted exactly when a logout of a target with that IQN
      succeeded. */
  lemma {:induction false} LogoutTargetsDeletes(run: Runner, ts: seq<Target>, iqn: string)
    ensures DeleteArgs(iqn) in LogoutTargets(run, ts).cmds <==>
            exists i :: 0 <= i < |ts| && ts[i].iqn == iqn && run(LogoutCmds(ts)[i]).failure.None?
    decreases |ts|
  {
    if |ts| > 0 {
      var init := ts[..|ts| - 1];
      var t := ts[|ts| - 1];
      LogoutTargetsDeletes(run, init, iqn);
      assert forall i :: 0 <= i < |init| ==> ts[i] == init[i] && LogoutCmds(ts)[i] == LogoutCmds(init)[i];
      var args := LogoutArgs(t.iqn, Address(t));
      assert LogoutCmds(ts)[|ts| - 1] == args;
      assert DeleteArgs(iqn) != args;
      if run(args).failure.None? && iqn == t.iqn {
        assert DeleteArgs(iqn) in LogoutTargets(run, ts).cmds;
      }
      if exists i :: 0 <= i < |ts| && ts[i].iqn == iqn && run(LogoutCmds(ts)[i]).failure.None? {
        var i :| 0 <= i < |ts| && ts[i].iqn == iqn && run(LogoutCmds(ts)[i]).failure.None?;
        if i < |init| {
          assert init[i].iqn == iqn && run(LogoutCmds(init)[i]).failure.None?;
        }
      }
    }
  }

  /** Which of the two portal operations runs. */
  datatype Action = Login | Logout

  /** DiscoverAndLogin / DiscoverAndLogout for one portal: a failed discovery returns its
      error and touches no target. */
  function PortalStep(run: Runner, action: Action, portal: string): Steps
    requires Discoverable(run, portal)
  {
    match DiscoverResult(run, portal)
    case DiscoverFailed(e) => Steps([DiscoverArgs(portal)], Some(e))
    case Discovered(ts) =>
      var s := if action == Login then LoginTargets(run, ts) else LogoutTargets(run, ts);
      Steps([DiscoverArgs(portal)] + s.cmds, s.err)
  }

  predicate AllDiscoverable(run: Runner, portals: seq<string>) {
    forall i {:trigger Discoverable(run, portals[i])} :: 0 <= i < |portals| ==> Discoverable(run, portals[i])
  }

  /** The portal loop: all commands, the first error, and the failed portals in order. */
  datatype Tally = Tally(cmds: seq<seq<string>>, first: Option<Error>, failed: seq<string>)

  /** The portal loop over `portals` whose steps were `steps`, one step per portal. */
  function TallyOver(portals: seq<string>, steps: seq<Steps>): Tally
    requires |steps| == |portals|
    decreases |portals|
  {
    if |portals| == 0 then Tally([], None, [])
    else
      var prev := TallyOver(portals[..|portals| - 1], steps[..|steps| - 1]);
      var s := steps[|steps| - 1];
      Tally(prev.cmds + s.cmds, FirstError(prev.first, s.err),
            prev.failed + if s.err.Some? then [portals[|portals| - 1]] else [])
  }

  /** The step DiscoverAndLogin or DiscoverAndLogout takes at each portal. */
  function PortalSteps(run: Runner, action: Action, portals: seq<string>): (steps: seq<Steps>)
    requires AllDiscoverable(run, portals)
    ensures |steps| == |portals|
  {
    seq(|portals|, k requires 0 <= k < |portals| => PortalStep(run, action, portals[k]))
  }

  function PortalsTally(run: Runner, action: Action, portals: seq<string>): Tally
    requires AllDiscoverable(run, portals)
  {
    TallyOver(portals, PortalSteps(run, action, portals))
  }

  /** DiscoverAndLoginPortals / DiscoverAndLogoutPortals: nil, or the first error with the
      list of failed portals prepended. */
  function PortalsError(run: Runner, action: Action, portals: seq<string>): Option<Error>
    requires AllDiscoverable(run, portals)
  {
    var t := PortalsTally(run, action, portals);
    if t.first.Some? then Some(WithMessage(t.first.value, FailedPortalsMessage(action, t.failed)))
    else None
  }

  /** The message errors.WithMessage puts before the first error. */
  function FailedPortalsMessage(action: Action, failed: seq<string>): string {
    match action
    case Login => "Failed to login portals " + Join(failed, ", ")
    case Logout => "Failed to logout portals " + Join(failed, ", ")
  }

  /** Step `j` is the first that fails. */
  predicate FirstStepFailedAt(steps: seq<Steps>, j: int) {
    && 0 <= j < |steps|
    && steps[j].err.Some?
    && forall i :: 0 <= i < j ==> steps[i].err.None?
  }

  /** The loop reports no error exactly when every step succeeded, and then it lists no
      failed portal. */
  lemma {:induction false} TallyNoError(portals: seq<string>, steps: seq<Steps>)
    requires |steps| == |portals|
    ensures TallyOver(portals, steps).first.None? <==> forall i :: 0 <= i < |steps| ==> steps[i].err.None?
    ensures TallyOver(portals, steps).first.None? <==> TallyOver(portals, steps).failed == []
    decreases |portals|
  {
    if |portals| > 0 {
      var init := steps[..|steps| - 1];
      TallyNoError(portals[..|portals| - 1], init);
      assert forall i :: 0 <= i < |init| ==> steps[i] == init[i];
    }
  }

  /** Otherwise its error is that of the first failing step, whose portal heads the list
      of failed portals. */
  lemma {:induction false} TallyFirst(portals: seq<string>, steps: seq<Steps>)
    requires |steps| == |portals|
    requires TallyOver(portals, steps).first.Some?
    ensures |TallyOver(portals, steps).failed| > 0
    ensures exists j :: FirstStepFailedAt(steps, j) &&
              TallyOver(portals, steps).first == steps[j].err &&
              TallyOver(portals, steps).failed[0] == portals[j]
    decreases |portals|
  {
    TallyNoError(portals, steps);
    var ps := portals[..|portals| - 1];
    var init := steps[..|steps| - 1];
    assert forall i :: 0 <= i < |init| ==> steps[i] == init[i];
    var prev := TallyOver(ps, init);
    if prev.first.Some? {
      TallyFirst(ps, init);
      var j :| FirstStepFailedAt(init, j) && prev.first == init[j].err && prev.failed[0] == ps[j];
      assert FirstStepFailedAt(steps, j);
    } else {
      TallyNoError(ps, init);
      assert FirstStepFailedAt(steps, |steps| - 1);
    }
  }

  /** A portal is listed as failed exactly when its step failed: every portal is tried. */
  lemma {:induction false} TallyFailed(portals: seq<string>, steps: seq<Steps>)
    requires |steps| == |portals|
    ensures forall p :: p in TallyOver(portals, steps).failed <==>
              exists i :: 0 <= i < |portals| && portals[i] == p && steps[i].err.Some?
    decreases |portals|
  {
    if |portals| > 0 {
      var ps := portals[..|portals| - 1];
      var init := steps[..|steps| - 1];
      TallyFailed(ps, init);
      forall p | exists i :: 0 <= i < |portals| && portals[i] == p && steps[i].err.Some?
        ensures p in TallyOver(portals, steps).failed
      {
        var i :| 0 <= i < |portals| && portals[i] == p && steps[i].err.Some?;
        if i < |ps| {
          assert ps[i] == p && init[i] == steps[i];
        }
      }
      forall p | p in TallyOver(portals, steps).failed
        ensures exists i :: 0 <= i < |portals| && portals[i] == p && steps[i].err.Some?
      {
        if p in TallyOver(ps, init).failed {
          var i :| 0 <= i < |ps| && ps[i] == p && init[i].err.Some?;
          assert portals[i] == p && steps[i] == init[i];
        } else {
          assert portals[|portals| - 1] == p;
        }
      }
    }
  }

  /** One more portal: the loop takes one more step. */
  lemma TallyExtend(portals: seq<string>, steps: seq<Steps>, s: Steps, i: nat)
    requires |steps| == i < |portals|
    ensures TallyOver(portals[..i + 1], steps + [s]) ==
            var prev := TallyOver(portals[..i], steps);
            Tally(prev.cmds + s.cmds, FirstError(prev.first, s.err),
                  prev.failed + if s.err.Some? then [portals[i]] else [])
  {
    assert portals[..i + 1][..i] == portals[..i];
    assert (steps + [s])[..i] == steps;
  }

  /** Steps that are the portals' own steps give the portals' tally. */
  lemma StepsAreTheTally(run: Runner, action: Action, portals: seq<string>, steps: seq<Steps>)
    requires AllDiscoverable(run, portals) && |steps| == |portals|
    requires forall k {:trigger PortalStep(run, action, portals[k])} ::
               0 <= k < |portals| ==> steps[k] == PortalStep(run, action, portals[k])
    ensures PortalsTally(run, action, portals) == TallyOver(portals, steps)
  {
    assert steps == PortalSteps(run, action, portals);
  }

  /** The portals' own steps, as PortalSteps lists them. */
  lemma PortalStepsAt(run: Runner, action: Action, portals: seq<string>)
    requires AllDiscoverable(run, portals)
    ensures forall i {:trigger PortalStep(run, action, portals[i])} :: 0 <= i < |portals| ==>
              PortalSteps(run, action, portals)[i] == PortalStep(run, action, portals[i])
  {
  }

  /** The portals' error is nil exactly when every portal succeeded. */
  lemma PortalsNoError(run: Runner, action: Action, portals: seq<string>)
    requires AllDiscoverable(run, portals)
    ensures PortalsError(run, action, portals).None? <==>
            forall i :: 0 <= i < |portals| ==> PortalStep(run, action, portals[i]).err.None?
  {
    var steps := PortalSteps(run, action, portals);
    TallyNoError(portals, steps);
    PortalStepsAt(run, action, portals);
    if forall i :: 0 <= i < |steps| ==> steps[i].err.None? {
      forall i | 0 <= i < |portals|
        ensures PortalStep(run, action, portals[i]).err.None?
      {
        assert steps[i].err.None?;
      }
    }
  }

  /** Otherwise it wraps the error of the first portal that failed with the message
      naming the failed portals. */
  lemma PortalsFirstError(run: Runner, action: Action, portals: seq<string>)
    requires AllDiscoverable(run, portals)
    requires PortalsError(run, action, portals).Some?
    ensures exists j :: FirstStepFailedAt(PortalSteps(run, action, portals), j) &&
              PortalsError(run, action, portals) ==
              Some(WithMessage(PortalStep(run, action, portals[j]).err.value,
                               FailedPortalsMessage(action, PortalsTally(run, action, portals).failed)))
  {
    var steps := PortalSteps(run, action, portals);
    TallyFirst(portals, steps);
    var j :| FirstStepFailedAt(steps, j) && TallyOver(portals, steps).first == steps[j].err &&
             TallyOver(portals, steps).failed[0] == portals[j];
    PortalStepsAt(run, action, portals);
    assert steps[j] == PortalStep(run, action, portals[j]);
  }

  /** The failed portals are those and only those whose step failed. */
  lemma PortalsFailed(run: Runner, action: Action, portals: seq<string>)
    requires AllDiscoverable(run, portals)
    ensures forall p :: p in PortalsTally(run, action, portals).failed <==>
              exists i :: 0 <= i < |portals| && portals[i] == p && PortalStep(run, action, p).err.Some?
  {
    var steps := PortalSteps(run, action, portals);
    TallyFailed(portals, steps);
    PortalStepsAt(run, action, portals);
    forall p ensures p in TallyOver(portals, steps).failed <==>
                     exists i :: 0 <= i < |portals| && portals[i] == p && PortalStep(run, action, p).err.Some?
    {
      if p in TallyOver(portals, steps).failed {
        var i :| 0 <= i < |portals| && portals[i] == p && steps[i].err.Some?;
        assert steps[i] == PortalStep(run, action, portals[i]);
      }
      if exists i :: 0 <= i < |portals| && portals[i] == p && PortalStep(run, action, p).err.Some? {
        var i :| 0 <= i < |portals| && portals[i] == p && PortalStep(run, action, p).err.Some?;
        assert steps[i] == PortalStep(run, action, portals[i]);
      }
    }
  }

  /** A failed discovery issues nothing after the discovery itself. */
  lemma FailedDiscoveryStops(run: Runner, action: Action, portal: string)
    requires run(DiscoverArgs(portal)).failure.Some?
    ensures PortalStep(run, action, portal) ==
            Steps([DiscoverArgs(portal)], Some(CmdFailed(run(DiscoverArgs(portal)).failure.value)))
  {
  }

  // ---------------------------------------------------------------------------------
  // The admin object

  /** iscsiAdmin, with the runner it invokes and the commands issued so far. */
  class IscsiAdmin {
    const run: Runner
    var issued: seq<seq<string>>

    constructor (run: Runner)
      ensures this.run == run && issued == []
    {
      this.run := run;
      issued := [];
    }

    /** iscsiCmd: one iscsiadm invocation. */
    method Command(args: seq<string>) returns (output: string, err: Option<Error>)
      modifies this
      ensures issued == old(issued) + [args]
      ensures output == run(args).output && err == ErrorOf(run(args))
    {
      issued := issued + [args];
      var r := run(args);
      output, err := r.output, ErrorOf(r);
    }

    method Login(iqn: string, portal: string) returns (err: Option<Error>)
      modifies this
      ensures issued == old(issued) + [LoginArgs(iqn, portal)]
      ensures err == ErrorOf(run(LoginArgs(iqn, portal)))
    {
      var _, e := Command(LoginArgs(iqn, portal));
      err := e;
    }

    method Logout(iqn: string, portal: string) returns (err: Option<Error>)
      modifies this
      ensures issued == old(issued) + [LogoutArgs(iqn, portal)]
      ensures err == ErrorOf(run(LogoutArgs(iqn, portal)))
    {
      var _, e := Command(LogoutArgs(iqn, portal));
      err := e;
    }

    method DeleteDBEntry(iqn: string) returns (err: Option<Error>)
      modifies this
      ensures issued == old(issued) + [DeleteArgs(iqn)]
      ensures err == ErrorOf(run(DeleteArgs(iqn)))
    {
      var _, e := Command(DeleteArgs(iqn));
      err := e;
    }

    method Discover(portal: string) returns (d: Discovery)
      requires Discoverable(run, portal)
      modifies this
      ensures issued == old(issued) + [DiscoverArgs(portal)]
      ensures d == DiscoverResult(run, portal)
    {
      var output, e := Command(DiscoverArgs(portal));
      if e.Some? {
        return DiscoverFailed(e.value);
      }
      var targets := ExtractIscsiTargets(output);
      d := Discovered(targets);
    }

    /** The login loop of DiscoverAndLogin over the discovered targets. */
    method LoginAll(targets: seq<Target>) returns (err: Option<Error>)
      modifies this
      ensures issued == old(issued) + LoginTargets(run, targets).cmds
      ensures err == LoginTargets(run, targets).err
    {
      ghost var start := issued;
      err := None;
      var i := 0;
      while i < |targets|
        invariant 0 <= i <= |targets|
        invariant issued == start + LoginTargets(run, targets[..i]).cmds
        invariant err == LoginTargets(run, targets[..i]).err
      {
        assert targets[..i + 1][..i] == targets[..i];
        var t := targets[i];
        var e := Login(t.iqn, Address(t));
        if e.Some? && err.None? {
          err := e;
        }
        i := i + 1;
      }
      FullPrefix(targets);
    }

    /** The logout loop of DiscoverAndLogout: a target logged out is deleted from the node
        database, and the deletion's own error is dropped. */
    method LogoutAll(targets: seq<Target>) returns (err: Option<Error>)
      modifies this
      ensures issued == old(issued) + LogoutTargets(run, targets).cmds
      ensures err == LogoutTargets(run, targets).err
    {
      ghost var start := issued;
      err := None;
      var i := 0;
      while i < |targets|
        invariant 0 <= i <= |targets|
        invariant issued == start + LogoutTargets(run, targets[..i]).cmds
        invariant err == LogoutTargets(run, targets[..i]).err
      {
        assert targets[..i + 1][..i] == targets[..i];
        var t := targets[i];
        var e := Logout(t.iqn, Address(t));
        if e.None? {
          var _ := DeleteDBEntry(t.iqn);
        }
        if e.Some? && err.None? {
          err := e;
        }
        i := i + 1;
      }
      FullPrefix(targets);
    }

    method DiscoverAndLogin(portal: string) returns (err: Option<Error>)
      requires Discoverable(run, portal)
      modifies this
      ensures issued == old(issued) + PortalStep(run, Action.Login, portal).cmds
      ensures err == PortalStep(run, Action.Login, portal).err
    {
      var d := Discover(portal);
      if d.DiscoverFailed? {
        return Some(d.err);
      }
      err := LoginAll(d.targets);
    }

    method DiscoverAndLogout(portal: string) returns (err: Option<Error>)
      requires Discoverable(run, portal)
      modifies this
      ensures issued == old(issued) + PortalStep(run, Action.Logout, portal).cmds
      ensures err == PortalStep(run, Action.Logout, portal).err
    {
      var d := Discover(portal);
      if d.DiscoverFailed? {
        return Some(d.err);
      }
      err := LogoutAll(d.targets);
    }

    method DiscoverAndLoginPortals(portals: seq<string>) returns (err: Option<Error>)
      requires AllDiscoverable(run, portals)
      modifies this
      ensures issued == old(issued) + PortalsTally(run, Action.Login, portals).cmds
      ensures err == PortalsError(run, Action.Login, portals)
    {
      ghost var start := issued;
      ghost var steps: seq<Steps> := [];
      var first: Option<Error> := None;
      var failed: seq<string> := [];
      var i := 0;
      while i < |portals|
        invariant 0 <= i <= |portals| && |steps| == i
        invariant forall k {:trigger PortalStep(run, Action.Login, portals[k])} ::
                    0 <= k < i ==> steps[k] == PortalStep(run, Action.Login, portals[k])
        invariant issued == start + TallyOver(portals[..i], steps).cmds
        invariant first == TallyOver(portals[..i], steps).first
        invariant failed == TallyOver(portals[..i], steps).failed
      {
        ghost var prev := TallyOver(portals[..i], steps);
        var e := DiscoverAndLogin(portals[i]);
        ghost var s := PortalStep(run, Action.Login, portals[i]);
        TallyExtend(portals, steps, s, i);
        AppendAssoc(start, prev.cmds, s.cmds);
        steps := steps + [s];
        if e.Some? {
          failed := failed + [portals[i]];
          if first.None? {
            first := e;
          }
        }
        i := i + 1;
      }
      FullPrefix(portals);
      StepsAreTheTally(run, Action.Login, portals, steps);
      if first.Some? {
        err := Some(WithMessage(first.value, FailedPortalsMessage(Action.Login, failed)));
      } else {
        err := None;
      }
    }

    method DiscoverAndLogoutPortals(portals: seq<string>) returns (err: Option<Error>)
      requires AllDiscoverable(run, portals)
      modifies this
      ensures issued == old(issued) + PortalsTally(run, Action.Logout, portals).cmds
      ensures err == PortalsError(run, Action.Logout, portals)
    {
      ghost var start := issued;
      ghost var steps: seq<Steps> := [];
      var first: Option<Error> := None;
      var failed: seq<string> := [];
      var i := 0;
      while i < |portals|
        invariant 0 <= i <= |portals| && |steps| == i
        invariant forall k {:trigger PortalStep(run, Action.Logout, portals[k])} ::
                    0 <= k < i ==> steps[k] == PortalStep(run, Action.Logout, portals[k])
        invariant issued == start + TallyOver(portals[..i], steps).cmds
        invariant first == TallyOver(portals[..i], steps).first
        invariant failed == TallyOver(portals[..i], steps).failed
      {
        ghost var prev := TallyOver(portals[..i], steps);
        var e := DiscoverAndLogout(portals[i]);
        ghost var s := PortalStep(run, Action.Logout, portals[i]);
        TallyExtend(portals, steps, s, i);
        AppendAssoc(start, prev.cmds, s.cmds);
        steps := steps + [s];
        if e.Some? {
          failed := failed + [portals[i]];
          if first.None? {
            first := e;
          }
        }
        i := i + 1;
      }
      FullPrefix(portals);
      StepsAreTheTally(run, Action.Logout, portals, steps);
      if first.Some? {
        err := Some(WithMessage(first.value, FailedPortalsMessage(Action.Logout, failed)));
      } else {
        err := None;
      }
    }
  }
}
