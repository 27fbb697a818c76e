/**
  The commands the remote-shell purge builds. The age test is delegated to
  POSIX `find -mtime +dias` ("more than `dias` whole 24-hour periods"),
  which is not the strict `mtime < now - dias * 86400` of the other
  purges: what `find` prints is taken as given, and the text of the
  commands is modelled as text, with no claim on how a shell parses it.
*/
module Commands {
  import opened Common
  import opened Rule

  /** `"sudo " if necesita_sudo else ""` */
  function SudoPrefix(sudo: bool): (p: string)
    ensures p == "sudo " <==> sudo
    ensures !sudo ==> p == ""
  {
    if sudo then "sudo " else ""
  }

  /** The probe, `{sudo}ls {ruta}`. */
  function ProbeCommand(prefix: string, ruta: string): string {
    prefix + ("ls " + ruta)
  }

  /** ` -name '{mascara}'` when a mask is set, nothing otherwise. */
  function NameClause(m: Option<string>): (c: string)
    ensures c == "" <==> !MaskActive(m)
  {
    if MaskActive(m) then " -name '" + m.value + "'" else ""
  }

  /** The search, `{sudo}find {ruta} -type f [-name '{mascara}'] -mtime +{dias} -print`. */
  function FindCommand(prefix: string, r: RouteConfig): string {
    prefix + ("find " + r.ruta + " -type f" + NameClause(r.mascara) + " -mtime +" + IntToString(r.dias) + " -print")
  }

  /** The delete, `{sudo}rm -f '{archivo}'`. */
  function RmCommand(prefix: string, file: string): string {
    prefix + ("rm -f '" + file + "'")
  }

  /** Reads back the file an `rm -f` command deletes. */
  function RmTarget(prefix: string, cmd: string): Option<string> {
    var head := prefix + "rm -f '";
    if |cmd| > |head| && cmd[..|head|] == head && cmd[|cmd| - 1] == '\'' then Some(cmd[|head|..|cmd| - 1])
    else None
  }

  lemma RmRoundTrip(prefix: string, file: string)
    ensures RmTarget(prefix, RmCommand(prefix, file)) == Some(file)
  {
    var head := prefix + "rm -f '";
    var cmd := RmCommand(prefix, file);
    assert cmd == head + file + "'";
    assert cmd[..|head|] == head;
    assert cmd[|head|..|cmd| - 1] == file;
  }

  /** The command is one of the three the purge builds under the prefix:
      the probe of some route, the search of some route, or the delete of
      some file. */
  ghost predicate Issued(prefix: string, cmd: string) {
    || (exists ruta :: cmd == ProbeCommand(prefix, ruta))
    || (exists r :: cmd == FindCommand(prefix, r))
    || (exists file :: cmd == RmCommand(prefix, file))
  }

  /** Every issued command is the prefix followed by `ls`, `find` or `rm`. */
  lemma IssuedHead(prefix: string, cmd: string)
    requires Issued(prefix, cmd)
    ensures |cmd| > |prefix| && cmd[..|prefix|] == prefix && cmd[|prefix|] in {'l', 'f', 'r'}
  {
    var tail: string;
    if exists ruta :: cmd == ProbeCommand(prefix, ruta) {
      var ruta :| cmd == ProbeCommand(prefix, ruta);
      tail := "ls " + ruta;
    } else if exists r :: cmd == FindCommand(prefix, r) {
      var r :| cmd == FindCommand(prefix, r);
      tail := "find " + r.ruta + " -type f" + NameClause(r.mascara) + " -mtime +" + IntToString(r.dias) + " -print";
    } else {
      var file :| cmd == RmCommand(prefix, file);
      tail := "rm -f '" + file + "'";
    }
    assert cmd == prefix + tail && tail[0] in {'l', 'f', 'r'};
    assert cmd[..|prefix|] == prefix;
    assert cmd[|prefix|] == tail[0];
  }

  lemma CommandsIssued(prefix: string, r: RouteConfig, file: string)
    ensures Issued(prefix, ProbeCommand(prefix, r.ruta))
    ensures Issued(prefix, FindCommand(prefix, r))
    ensures Issued(prefix, RmCommand(prefix, file))
  {
  }

  /** A command issued under the privilege prefix starts with `sudo `
      exactly when the connection asked for it. */
  lemma IssuedCarriesSudo(sudo: bool, cmd: string)
    requires Issued(SudoPrefix(sudo), cmd)
    ensures StartsWith(cmd, "sudo ") <==> sudo
  {
    IssuedHead(SudoPrefix(sudo), cmd);
    if !sudo {
      assert cmd[0] != 's';
    }
  }

  /** Each of the three commands starts with `sudo ` exactly when the
      connection asks for it. */
  lemma CommandsCarrySudo(sudo: bool, r: RouteConfig, file: string)
    ensures StartsWith(ProbeCommand(SudoPrefix(sudo), r.ruta), "sudo ") <==> sudo
    ensures StartsWith(FindCommand(SudoPrefix(sudo), r), "sudo ") <==> sudo
    ensures StartsWith(RmCommand(SudoPrefix(sudo), file), "sudo ") <==> sudo
  {
    var p := SudoPrefix(sudo);
    CommandsIssued(p, r, file);
    IssuedCarriesSudo(sudo, ProbeCommand(p, r.ruta));
    IssuedCarriesSudo(sudo, FindCommand(p, r));
    IssuedCarriesSudo(sudo, RmCommand(p, file));
  }

  /** The lines of the search output that are not blank once stripped,
      in order and as printed: one delete is issued for each. */
  function Targets(out: string): seq<string> {
    NonBlank(SplitOn(out, '\n'))
  }

  function NonBlank(lines: seq<string>): (ts: seq<string>)
    ensures |ts| <= |lines|
  {
    if lines == [] then []
    else
      var last := lines[|lines| - 1];
      NonBlank(lines[..|lines| - 1]) + (if Strip(last) != "" then [last] else [])
  }

  /** The targets are exactly the lines of the output that are not blank. */
  lemma {:induction false} NonBlankMembers(lines: seq<string>)
    ensures forall x :: x in NonBlank(lines) <==> x in lines && Strip(x) != ""
    decreases |lines|
  {
    if lines != [] {
      var init := lines[..|lines| - 1];
      var last := lines[|lines| - 1];
      NonBlankMembers(init);
      assert lines == init + [last];
    }
  }

  lemma TargetsMembers(out: string)
    ensures forall x :: x in Targets(out) <==> x in SplitOn(out, '\n') && Strip(x) != ""
    ensures forall i :: 0 <= i < |Targets(out)| ==> Strip(Targets(out)[i]) != ""
  {
    NonBlankMembers(SplitOn(out, '\n'));
    var ts := Targets(out);
    forall i | 0 <= i < |ts| ensures Strip(ts[i]) != "" {
      assert ts[i] in ts;
    }
  }

  /** Output made only of white space, line breaks included, yields no
      target. */
  lemma BlankOutputNoTargets(out: string)
    requires forall i :: 0 <= i < |out| ==> IsSpace(out[i])
    ensures Targets(out) == []
  {
    var ts := Targets(out);
    if ts != [] {
      var x := ts[0];
      assert x in ts;
      TargetsMembers(out);
      SplitWithin(out, '\n');
      assert forall i :: 0 <= i < |x| ==> IsSpace(x[i]);
      BlankStrips(x);
      assert false;
    }
  }

  lemma {:induction false} BlankStrips(s: string)
    requires forall i :: 0 <= i < |s| ==> IsSpace(s[i])
    ensures Strip(s) == ""
  {
    LStripSuffix(s);
  }
}

/**
  The remote-shell purge, `eliminar_archivos_ssh`: over one connection,
  for each route it runs the probe, then the search, then one `rm -f` per
  target, counting an exit status of 0 as removed and anything else as an
  error. `ejecutar_comando_ssh` never raises: a failing command comes back
  as empty output, the error text and status 1.
*/
module Ssh {
  import opened Common
  import opened Rule
  import opened Session
  import opened Commands

  /** What the remote side does with a command: it completes with output,
      error text and exit status, or the call raises. */
  datatype CmdReply = Completed(out: string, err: string, status: int) | Raised(msg: string)

  /** `(salida, errores, exit_status)` */
  datatype CmdResult = CmdResult(out: string, err: string, status: int)

  /** `ejecutar_comando_ssh`: both streams stripped; an exception becomes
      `("", str(e), 1)`. */
  function Run(rep: CmdReply): CmdResult {
    match rep
    case Completed(out, err, status) => CmdResult(Strip(out), Strip(err), status)
    case Raised(msg) => CmdResult("", msg, 1)
  }

  /** A command succeeds exactly when it completed with status 0; one that
      raised is a failure with no output. */
  lemma RunStatus(rep: CmdReply)
    ensures Run(rep).status == 0 <==> rep.Completed? && rep.status == 0
    ensures rep.Raised? ==> Run(rep).out == "" && Run(rep).status != 0
  {
  }

  /** The remote side answers the n-th command of the connection. */
  type Shell = (nat, string) -> CmdReply

  /** Commands issued so far and the two counters of the connection. */
  datatype ShellState = ShellState(log: seq<string>, removed: nat, errored: nat)

  function Issue(sh: Shell, st: ShellState, cmd: string): CmdResult {
    Run(sh(|st.log|, cmd))
  }

  /** The delete of one line of the search output: the line is stripped;
      a blank one is skipped. */
  function DeleteStep(sh: Shell, prefix: string, target: string, st: ShellState): ShellState {
    var file := Strip(target);
    if file == "" then st
    else
      var cmd := RmCommand(prefix, file);
      if Issue(sh, st, cmd).status == 0 then ShellState(st.log + [cmd], st.removed + 1, st.errored)
      else ShellState(st.log + [cmd], st.removed, st.errored + 1)
  }

  /** One `rm -f` per target, in order. */
  function Deletes(sh: Shell, prefix: string, targets: seq<string>, st: ShellState): ShellState
    decreases |targets|
  {
    if targets == [] then st
    else DeleteStep(sh, prefix, targets[|targets| - 1], Deletes(sh, prefix, targets[..|targets| - 1], st))
  }

  /** One route: probe, search, deletes. A failing search adds no error of
      its own; its output, if any, is still used. */
  function RouteStep(sh: Shell, prefix: string, r: RouteConfig, st: ShellState): ShellState {
    var probe := ProbeCommand(prefix, r.ruta);
    var s1 := st.(log := st.log + [probe]);
    if Issue(sh, st, probe).status != 0 then s1.(errored := s1.errored + 1)
    else
      var find := FindCommand(prefix, r);
      Deletes(sh, prefix, Targets(Issue(sh, s1, find).out), s1.(log := s1.log + [find]))
  }

  function Routes(sh: Shell, prefix: string, routes: seq<RouteConfig>, st: ShellState): ShellState
    decreases |routes|
  {
    if routes == [] then st
    else RouteStep(sh, prefix, routes[|routes| - 1], Routes(sh, prefix, routes[..|routes| - 1], st))
  }

  /** The whole connection: without paramiko it returns (0, 1) at once. */
  function Connection(sh: Shell, paramiko: bool, sudo: bool, fault: ConnFault, routes: seq<RouteConfig>): ShellState {
    var st := ShellState([], 0, 0);
    if !paramiko then st.(errored := 1)
    else if fault == ConnectFails then st.(errored := |routes|)
    else
      var t := Routes(sh, SudoPrefix(sudo), routes, st);
      if fault == CloseFails then t.(errored := t.errored + |routes|) else t
  }

  /** The `rm -f` commands for a list of non-blank targets. */
  function RmCommands(prefix: string, targets: seq<string>): seq<string>
    decreases |targets|
  {
    if targets == [] then [] else RmCommands(prefix, targets[..|targets| - 1]) + [RmCommand(prefix, Strip(targets[|targets| - 1]))]
  }

  /** A non-blank line costs one `rm -f` and one count, as removed or as
      an error. */
  lemma DeleteStepCount(sh: Shell, prefix: string, target: string, st: ShellState)
    requires Strip(target) != ""
    ensures var t := DeleteStep(sh, prefix, target, st);
      && t.log == st.log + [RmCommand(prefix, Strip(target))]
      && (t.removed - st.removed) + (t.errored - st.errored) == 1
      && t.removed >= st.removed && t.errored >= st.errored
  {
  }

  /** Over targets none of which is blank: exactly one `rm -f` per target,
      each counted once, as removed or as an error. */
  lemma {:induction false} DeletesCount(sh: Shell, prefix: string, targets: seq<string>, st: ShellState)
    requires forall i :: 0 <= i < |targets| ==> Strip(targets[i]) != ""
    ensures var t := Deletes(sh, prefix, targets, st);
      && t.log == st.log + RmCommands(prefix, targets)
      && (t.removed - st.removed) + (t.errored - st.errored) == |targets|
      && t.removed >= st.removed && t.errored >= st.errored
    decreases |targets|
  {
    if targets != [] {
      var init := targets[..|targets| - 1];
      var last := targets[|targets| - 1];
      DeletesCount(sh, prefix, init, st);
      var s1 := Deletes(sh, prefix, init, st);
      DeleteStepCount(sh, prefix, last, s1);
      assert Deletes(sh, prefix, targets, st) == DeleteStep(sh, prefix, last, s1);
      assert RmCommands(prefix, targets) == RmCommands(prefix, init) + [RmCommand(prefix, Strip(last))];
    }
  }

  /** A route whose probe fails costs exactly one error and issues nothing
      but the probe. */
  lemma ProbeFailure(sh: Shell, prefix: string, r: RouteConfig, st: ShellState)
    requires Issue(sh, st, ProbeCommand(prefix, r.ruta)).status != 0
    ensures RouteStep(sh, prefix, r, st) == ShellState(st.log + [ProbeCommand(prefix, r.ruta)], st.removed, st.errored + 1)
  {
  }

  /** After a successful probe, the route issues the search and then one
      delete per target of its output, whatever the status of the search,
      and its only errors are failed deletes. */
  lemma ProbeSuccess(sh: Shell, prefix: string, r: RouteConfig, st: ShellState)
    requires Issue(sh, st, ProbeCommand(prefix, r.ruta)).status == 0
    ensures var s1 := st.(log := st.log + [ProbeCommand(prefix, r.ruta)]);
      var targets := Targets(Issue(sh, s1, FindCommand(prefix, r)).out);
      var t := RouteStep(sh, prefix, r, st);
      && t.log == st.log + [ProbeCommand(prefix, r.ruta)] + [FindCommand(prefix, r)] + RmCommands(prefix, targets)
      && (t.removed - st.removed) + (t.errored - st.errored) == |targets|
      && t.removed >= st.removed && t.errored >= st.errored
  {
    var probe := ProbeCommand(prefix, r.ruta);
    var s1 := st.(log := st.log + [probe]);
    var find := FindCommand(prefix, r);
    var out := Issue(sh, s1, find).out;
    var targets := Targets(out);
    TargetsMembers(out);
    var s2 := s1.(log := s1.log + [find]);
    DeletesCount(sh, prefix, targets, s2);
  }

  /** Every command of a log is issued under the prefix. */
  ghost predicate AllIssued(prefix: string, log: seq<string>) {
    forall k :: 0 <= k < |log| ==> Issued(prefix, log[k])
  }

  lemma DeleteStepIssued(sh: Shell, prefix: string, target: string, st: ShellState)
    requires AllIssued(prefix, st.log)
    ensures AllIssued(prefix, DeleteStep(sh, prefix, target, st).log)
  {
    CommandsIssued(prefix, RouteConfig("", 0, None), Strip(target));
  }

  lemma {:induction false} DeletesIssued(sh: Shell, prefix: string, targets: seq<string>, st: ShellState)
    requires AllIssued(prefix, st.log)
    ensures AllIssued(prefix, Deletes(sh, prefix, targets, st).log)
    decreases |targets|
  {
    if targets != [] {
      DeletesIssued(sh, prefix, targets[..|targets| - 1], st);
      DeleteStepIssued(sh, prefix, targets[|targets| - 1], Deletes(sh, prefix, targets[..|targets| - 1], st));
    }
  }

  lemma RouteStepIssued(sh: Shell, prefix: string, r: RouteConfig, st: ShellState)
    requires AllIssued(prefix, st.log)
    ensures AllIssued(prefix, RouteStep(sh, prefix, r, st).log)
  {
    CommandsIssued(prefix, r, "");
    var probe := ProbeCommand(prefix, r.ruta);
    var s1 := st.(log := st.log + [probe]);
    assert AllIssued(prefix, s1.log);
    if Issue(sh, st, probe).status == 0 {
      var find := FindCommand(prefix, r);
      var s2 := s1.(log := s1.log + [find]);
      assert AllIssued(prefix, s2.log);
      DeletesIssued(sh, prefix, Targets(Issue(sh, s1, find).out), s2);
    }
  }

  lemma {:induction false} RoutesIssued(sh: Shell, prefix: string, routes: seq<RouteConfig>, st: ShellState)
    requires AllIssued(prefix, st.log)
    ensures AllIssued(prefix, Routes(sh, prefix, routes, st).log)
    decreases |routes|
  {
    if routes != [] {
      RoutesIssued(sh, prefix, routes[..|routes| - 1], st);
      RouteStepIssued(sh, prefix, routes[|routes| - 1], Routes(sh, prefix, routes[..|routes| - 1], st));
    }
  }

  /** Every command the connection issues starts with `sudo ` exactly when
      the connection asked for it. */
  lemma ConnectionSudo(sh: Shell, paramiko: bool, sudo: bool, fault: ConnFault, routes: seq<RouteConfig>)
    ensures var t := Connection(sh, paramiko, sudo, fault, routes);
      forall k :: 0 <= k < |t.log| ==> (StartsWith(t.log[k], "sudo ") <==> sudo)
  {
    var t := Connection(sh, paramiko, sudo, fault, routes);
    if paramiko && fault != ConnectFails {
      RoutesIssued(sh, SudoPrefix(sudo), routes, ShellState([], 0, 0));
      forall k | 0 <= k < |t.log| ensures StartsWith(t.log[k], "sudo ") <==> sudo {
        IssuedCarriesSudo(sudo, t.log[k]);
      }
    }
  }

  /** Each route adds to the counters at most one error or one count per
      target, never taking anything back. */
  lemma {:induction false} RoutesMonotone(sh: Shell, prefix: string, routes: seq<RouteConfig>, st: ShellState)
    ensures var t := Routes(sh, prefix, routes, st);
      t.removed >= st.removed && t.errored >= st.errored && |t.log| >= |st.log| + |routes|
    decreases |routes|
  {
    if routes != [] {
      var r := routes[|routes| - 1];
      var s1 := Routes(sh, prefix, routes[..|routes| - 1], st);
      RoutesMonotone(sh, prefix, routes[..|routes| - 1], st);
      var probe := ProbeCommand(prefix, r.ruta);
      if Issue(sh, s1, probe).status == 0 {
        ProbeSuccess(sh, prefix, r, s1);
      }
    }
  }

  /** Without paramiko the connection reports (0, 1); when it cannot be
      opened it reports one error per route and issues nothing. */
  lemma ConnectionFailures(sh: Shell, sudo: bool, fault: ConnFault, routes: seq<RouteConfig>)
    ensures Connection(sh, false, sudo, fault, routes) == ShellState([], 0, 1)
    ensures Connection(sh, true, sudo, ConnectFails, routes) == ShellState([], 0, |routes|)
    ensures fault == CloseFails ==>
      Connection(sh, true, sudo, fault, routes).errored == Connection(sh, true, sudo, Healthy, routes).errored + |routes|
  {
  }

  // ---------------------------------------------------------------------
  // The purge as the program runs it.

  class SshSession {
    const sh: Shell
    var log: seq<string>
    var removed: nat
    var errored: nat

    function State(): ShellState
      reads this
    {
      ShellState(log, removed, errored)
    }

    constructor (sh: Shell)
      ensures this.sh == sh && State() == ShellState([], 0, 0)
    {
      this.sh := sh;
      log := [];
      removed, errored := 0, 0;
    }

    /** `ejecutar_comando_ssh(cliente, comando, descripcion)` */
    method Execute(cmd: string) returns (res: CmdResult)
      modifies this
      ensures res == Issue(sh, old(State()), cmd)
      ensures log == old(log) + [cmd] && removed == old(removed) && errored == old(errored)
    {
      res := Run(sh(|log|, cmd));
      log := log + [cmd];
    }

    /** One iteration of the delete loop. */
    method DeleteFile(prefix: string, target: string)
      modifies this
      ensures State() == DeleteStep(sh, prefix, target, old(State()))
    {
      var file := Strip(target);
      if file == "" {
        return;
      }
      var res := Execute(RmCommand(prefix, file));
      if res.status == 0 {
        removed := removed + 1;
      } else {
        errored := errored + 1;
      }
    }

    /** The delete loop over the lines of the search output. */
    method DeleteAll(prefix: string, targets: seq<string>)
      modifies this
      ensures State() == Deletes(sh, prefix, targets, old(State()))
    {
      ghost var s0 := State();
      for i := 0 to |targets|
        invariant State() == Deletes(sh, prefix, targets[..i], s0)
      {
        assert targets[..i + 1][..i] == targets[..i];
        DeleteFile(prefix, targets[i]);
      }
      assert targets[..|targets|] == targets;
    }

    /** The search and its deletes, once the probe has succeeded. */
    method SearchAndDelete(prefix: string, r: RouteConfig)
      modifies this
      ensures var find := FindCommand(prefix, r);
        State() == Deletes(sh, prefix, Targets(Issue(sh, old(State()), find).out), old(State()).(log := old(log) + [find]))
    {
      var found := Execute(FindCommand(prefix, r));
      DeleteAll(prefix, Targets(found.out));
    }

    method PurgeRoute(prefix: string, r: RouteConfig)
      modifies this
      ensures State() == RouteStep(sh, prefix, r, old(State()))
    {
      var probe := Execute(ProbeCommand(prefix, r.ruta));
      if probe.status != 0 {
        errored := errored + 1;
        return;
      }
      SearchAndDelete(prefix, r);
    }

    /** The route loop of one connection. */
    method PurgeRoutes(prefix: string, routes: seq<RouteConfig>)
      modifies this
      ensures State() == Routes(sh, prefix, routes, old(State()))
    {
      ghost var s0 := State();
      for i := 0 to |routes|
        invariant State() == Routes(sh, prefix, routes[..i], s0)
      {
        assert routes[..i + 1][..i] == routes[..i];
        PurgeRoute(prefix, routes[i]);
      }
      assert routes[..|routes|] == routes;
    }

    /** `eliminar_archivos_ssh(conexion)`: returns (removed, errored). */
    method PurgeConnection(paramiko: bool, sudo: bool, fault: ConnFault, routes: seq<RouteConfig>)
      returns (removedTotal: nat, erroredTotal: nat)
      modifies this
      requires log == []
      ensures var t := Connection(sh, paramiko, sudo, fault, routes);
        log == t.log && removedTotal == t.removed && erroredTotal == t.errored
    {
      removed, errored := 0, 0;
      if !paramiko {
        return 0, 1;
      }
      if fault == ConnectFails {
        return 0, |routes|;
      }
      PurgeRoutes(SudoPrefix(sudo), routes);
      removedTotal, erroredTotal := removed, errored;
      if fault == CloseFails {
        erroredTotal := erroredTotal + |routes|;
      }
    }
  }
}
