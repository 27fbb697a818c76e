/**
  One run of the purge. `procesar_conexion` hands a merged connection to
  the back end its `tipo` names and answers any exception that reaches it
  with one error per configured route; `eliminar_archivos_antiguos`
  merges the configuration, checks the dependencies and adds up the
  counts of every connection. Connections share the local disk; each
  remote connection reaches its own servers through a `Remote`.
*/
module Retention {
  import opened Common
  import opened Rule
  import opened Session
  import opened Config
  import Local
  import Sftp
  import Ftp
  import Ssh
  import Commands

  /** What one alias reaches besides the local disk: its shell, its SFTP
      and FTP servers, the files on them, how its session fares and the
      time zone of its `MDTM` replies. */
  datatype Remote = Remote(
    shell: Ssh.Shell,
    sftp: Sftp.Server,
    ftp: Ftp.Server,
    fault: ConnFault,
    utcOffset: int,
    files: set<string>)

  /** The pair a back end returns. */
  datatype Counts = Counts(removed: nat, errored: nat)

  /** What `procesar_conexion` leaves: its pair, or an exception that
      escapes it; either way the local files still present. */
  datatype Processed = Crashed(present: set<string>) | Counted(removed: nat, errored: nat, present: set<string>)

  // ---------------------------------------------------------------------
  // The settings a back end reads.

  /** What `for ruta_config in conexion['rutas']` walks and
      `len(conexion['rutas'])` counts: a list's entries, or a string's
      characters, on each of which `ruta_config['ruta']` raises; `None`
      when the key is missing or the value has no length. */
  function RouteList(conf: Dict): Option<seq<RouteEntry>> {
    if "rutas" !in conf then None
    else match conf["rutas"]
      case Routes(es) => Some(es)
      case Str(s) => Some(seq(|s|, _ => Malformed))
      case Num(_) => None
      case Bool(_) => None
      case Null => None
  }

  /** The routes handled before the first malformed entry raises. */
  function GoodPrefix(es: seq<RouteEntry>): (rs: seq<RouteConfig>)
    ensures |rs| <= |es|
    decreases |es|
  {
    if es == [] || es[0].Malformed? then [] else [es[0].route] + GoodPrefix(es[1..])
  }

  predicate AllGood(es: seq<RouteEntry>) {
    forall i :: 0 <= i < |es| ==> es[i].Good?
  }

  /** The prefix holds the routes of the leading well-formed entries and
      stops at the first malformed one; it is everything exactly when no
      entry is malformed. */
  lemma {:induction false} GoodPrefixMeaning(es: seq<RouteEntry>)
    ensures forall i :: 0 <= i < |GoodPrefix(es)| ==> es[i] == Good(GoodPrefix(es)[i])
    ensures |GoodPrefix(es)| < |es| ==> es[|GoodPrefix(es)|] == Malformed
    ensures |GoodPrefix(es)| == |es| <==> AllGood(es)
    decreases |es|
  {
    if es != [] && es[0].Good? {
      var rest := es[1..];
      GoodPrefixMeaning(rest);
      var rs := GoodPrefix(es);
      assert rs == [es[0].route] + GoodPrefix(rest);
      forall i | 0 <= i < |rs| ensures es[i] == Good(rs[i]) {
        if i > 0 {
          assert es[i] == rest[i - 1];
        }
      }
      if |rs| < |es| {
        assert es[|rs|] == rest[|rs| - 1];
      }
      if AllGood(es) {
        assert forall i :: 0 <= i < |rest| ==> rest[i] == es[i + 1];
      }
    }
  }

  /** Python's truth value of a setting. */
  predicate Truthy(v: Value) {
    match v
    case Str(s) => s != []
    case Num(n) => n != 0
    case Bool(b) => b
    case Null => false
    case Routes(es) => es != []
  }

  /** `conexion.get('necesita_sudo', False)` */
  predicate NeedsSudo(conf: Dict) {
    "necesita_sudo" in conf && Truthy(conf["necesita_sudo"])
  }

  /** A missing `host`, `usuario` or `contrasena` raises `KeyError` before
      the session opens, which every back end answers as it answers a
      session that cannot be opened. */
  function FaultOf(conf: Dict, w: Remote): ConnFault {
    if "host" in conf && "usuario" in conf && "contrasena" in conf then w.fault else ConnectFails
  }

  // ---------------------------------------------------------------------
  // The branches of `procesar_conexion`.

  /** A remote back end after its route loop: a malformed entry or a
      failing close raises into the handler that adds one error per
      configured route to what was counted so far. */
  function Finish(fault: ConnFault, es: seq<RouteEntry>, removed: nat, errored: nat): Counts {
    if |GoodPrefix(es)| < |es| || fault == CloseFails then Counts(removed, errored + |es|)
    else Counts(removed, errored)
  }

  /** `eliminar_archivos_ssh` once paramiko is known to be there. */
  function SshBranch(conf: Dict, w: Remote, es: seq<RouteEntry>): Counts {
    var fault := FaultOf(conf, w);
    if fault == ConnectFails then Counts(0, |es|)
    else
      var t := Ssh.Routes(w.shell, Commands.SudoPrefix(NeedsSudo(conf)), GoodPrefix(es), Ssh.ShellState([], 0, 0));
      Finish(fault, es, t.removed, t.errored)
  }

  /** `eliminar_archivos_sftp` once paramiko is known to be there. */
  function SftpBranch(conf: Dict, w: Remote, es: seq<RouteEntry>, now: int): Counts {
    var fault := FaultOf(conf, w);
    if fault == ConnectFails then Counts(0, |es|)
    else
      var t := Sftp.Routes(w.sftp, GoodPrefix(es), now, Tally(w.files, 0, 0));
      Finish(fault, es, t.removed, t.errored)
  }

  /** `eliminar_archivos_ftp` */
  function FtpBranch(conf: Dict, w: Remote, es: seq<RouteEntry>, now: int): Counts {
    var fault := FaultOf(conf, w);
    if fault == ConnectFails then Counts(0, |es|)
    else
      var t := Ftp.Routes(w.ftp, w.ftp.home, GoodPrefix(es), now, w.utcOffset, Tally(w.files, 0, 0));
      Finish(fault, es, t.removed, t.errored)
  }

  /** The SFTP and FTP back ends of `limpieza_2.7.py` count in the list
      `contadores` and copy it into their totals only after the route
      loop. A malformed entry raises before that copy, so the handler adds
      one error per configured route to totals that are still zero; a
      failing close comes after the copy and keeps the counts. */
  function Finish27(fault: ConnFault, es: seq<RouteEntry>, removed: nat, errored: nat): Counts {
    if |GoodPrefix(es)| < |es| then Counts(0, |es|)
    else if fault == CloseFails then Counts(removed, errored + |es|)
    else Counts(removed, errored)
  }

  /** `eliminar_archivos_sftp` of `limpieza_2.7.py` once paramiko is known
      to be there. */
  function SftpBranch27(conf: Dict, w: Remote, es: seq<RouteEntry>, now: int): Counts {
    var fault := FaultOf(conf, w);
    if fault == ConnectFails then Counts(0, |es|)
    else
      var t := Sftp.Routes(w.sftp, GoodPrefix(es), now, Tally(w.files, 0, 0));
      Finish27(fault, es, t.removed, t.errored)
  }

  /** `eliminar_archivos_ftp` of `limpieza_2.7.py` */
  function FtpBranch27(conf: Dict, w: Remote, es: seq<RouteEntry>, now: int): Counts {
    var fault := FaultOf(conf, w);
    if fault == ConnectFails then Counts(0, |es|)
    else
      var t := Ftp.Routes(w.ftp, w.ftp.home, GoodPrefix(es), now, w.utcOffset, Tally(w.files, 0, 0));
      Finish27(fault, es, t.removed, t.errored)
  }

  /** The local routes one after the other, each a fresh call of
      `eliminar_archivos_locales` on the files the previous ones left. */
  function LocalRoutes(d: Local.Disk, rs: seq<RouteConfig>, now: int, present: set<string>): Tally
    decreases |rs|
  {
    if rs == [] then Tally(present, 0, 0)
    else
      var t := LocalRoutes(d, rs[..|rs| - 1], now, present);
      var u := Local.Purge(d, rs[|rs| - 1], now, t.present);
      Tally(u.present, t.removed + u.removed, t.errored + u.errored)
  }

  /** The local branch: the sums over the routes, or, when an entry is
      malformed, `(0, len(rutas))` with the files of the earlier routes
      gone all the same. */
  function LocalBranch(d: Local.Disk, es: seq<RouteEntry>, now: int, present: set<string>): Processed {
    var t := LocalRoutes(d, GoodPrefix(es), now, present);
    if |GoodPrefix(es)| == |es| then Counted(t.removed, t.errored, t.present) else Counted(0, |es|, t.present)
  }

  predicate ShellTipo(tipo: string) {
    tipo == "ssh" || tipo == "sftp"
  }

  /** `procesar_conexion(alias, conexion)`. `conexion['tipo'].upper()` runs
      before the handler, so a missing or non-text `tipo` escapes; so does
      the `len(conexion['rutas'])` of the handler when `rutas` has no
      length, unless the back end returned before reading it. */
  function Process(conf: Dict, d: Local.Disk, w: Remote, paramiko: bool, now: int, present: set<string>): Processed {
    if "tipo" !in conf || !conf["tipo"].Str? then Crashed(present)
    else
      var tipo := conf["tipo"].s;
      if ShellTipo(tipo) && !paramiko then Counted(0, 1, present)
      else match RouteList(conf)
        case None => Crashed(present)
        case Some(es) =>
          if tipo == "local" then LocalBranch(d, es, now, present)
          else
            var c :=
              if tipo == "ssh" then SshBranch(conf, w, es)
              else if tipo == "sftp" then SftpBranch(conf, w, es, now)
              else if tipo == "ftp" then FtpBranch(conf, w, es, now)
              else Counts(0, |es|);
            Counted(c.removed, c.errored, present)
  }

  // ---------------------------------------------------------------------
  // The run.

  /** The loop of `eliminar_archivos_antiguos` over the merged
      connections, in order, stopping at the first exception. */
  function Totals(m: Registry, d: Local.Disk, worlds: string -> Remote, paramiko: bool, now: int, present: set<string>): Processed
    decreases |m|
  {
    if m == [] then Counted(0, 0, present)
    else
      var p := Totals(m[..|m| - 1], d, worlds, paramiko, now, present);
      if p.Crashed? then p
      else
        var q := Process(m[|m| - 1].1, d, worlds(m[|m| - 1].0), paramiko, now, p.present);
        if q.Crashed? then q else Counted(p.removed + q.removed, p.errored + q.errored, q.present)
  }

  datatype Verdict = NoConnections | MissingDependencies | Aborted | Finished(removed: nat, errored: nat)

  datatype RunEnd = RunEnd(verdict: Verdict, present: set<string>)

  /** `eliminar_archivos_antiguos` on loaded files: an empty merge stops
      the run; so does a dependency check that fails, or raises; an
      exception out of a connection aborts it; otherwise the final totals. */
  function Run(conns: Registry, creds: map<string, Dict>, d: Local.Disk, worlds: string -> Remote,
               paramiko: bool, now: int, present: set<string>): RunEnd
  {
    var m := Merge(conns, creds);
    if m == [] then RunEnd(NoConnections, present)
    else match Dependencies(m, paramiko)
      case None => RunEnd(Aborted, present)
      case Some(ok) =>
        if !ok then RunEnd(MissingDependencies, present)
        else
          var p := Totals(m, d, worlds, paramiko, now, present);
          if p.Crashed? then RunEnd(Aborted, p.present) else RunEnd(Finished(p.removed, p.errored), p.present)
  }

  // ---------------------------------------------------------------------
  // What the dispatch promises.

  /** A connection escapes `procesar_conexion` exactly when its `tipo` is
      missing or not text, or when its `rutas` has no length and the back
      end does not return first for want of paramiko; nothing was deleted
      then. */
  lemma ProcessCrashes(conf: Dict, d: Local.Disk, w: Remote, paramiko: bool, now: int, present: set<string>)
    ensures var p := Process(conf, d, w, paramiko, now, present);
      && (p.Crashed? <==>
            || "tipo" !in conf || !conf["tipo"].Str?
            || (RouteList(conf).None? && !(ShellTipo(conf["tipo"].s) && !paramiko)))
      && (p.Crashed? ==> p.present == present)
  {
  }

  /** An unknown `tipo` counts one error per configured route and touches
      nothing. */
  lemma UnknownTipo(conf: Dict, d: Local.Disk, w: Remote, paramiko: bool, now: int, present: set<string>)
    requires "tipo" in conf && conf["tipo"].Str?
    requires conf["tipo"].s !in {"local", "ssh", "sftp", "ftp"}
    requires RouteList(conf).Some?
    ensures Process(conf, d, w, paramiko, now, present) == Counted(0, |RouteList(conf).value|, present)
  {
  }

  /** Without paramiko an SSH or SFTP connection is one error, whatever
      its routes. */
  lemma ShellWithoutParamiko(conf: Dict, d: Local.Disk, w: Remote, now: int, present: set<string>)
    requires "tipo" in conf && conf["tipo"].Str? && ShellTipo(conf["tipo"].s)
    ensures Process(conf, d, w, false, now, present) == Counted(0, 1, present)
  {
  }

  /** With well-formed routes and complete credentials, the SSH branch
      returns exactly what the SSH back end returns for the connection. */
  lemma SshDispatch(conf: Dict, d: Local.Disk, w: Remote, now: int, present: set<string>)
    requires "tipo" in conf && conf["tipo"] == Str("ssh")
    requires RouteList(conf).Some? && AllGood(RouteList(conf).value)
    requires "host" in conf && "usuario" in conf && "contrasena" in conf
    ensures var es := RouteList(conf).value;
      var t := Ssh.Connection(w.shell, true, NeedsSudo(conf), w.fault, GoodPrefix(es));
      Process(conf, d, w, true, now, present) == Counted(t.removed, t.errored, present)
  {
    GoodPrefixMeaning(RouteList(conf).value);
  }

  /** The same for SFTP. */
  lemma SftpDispatch(conf: Dict, d: Local.Disk, w: Remote, now: int, present: set<string>)
    requires "tipo" in conf && conf["tipo"] == Str("sftp")
    requires RouteList(conf).Some? && AllGood(RouteList(conf).value)
    requires "host" in conf && "usuario" in conf && "contrasena" in conf
    ensures var es := RouteList(conf).value;
      var t := Sftp.Connection(w.sftp, true, w.fault, GoodPrefix(es), now, w.files);
      Process(conf, d, w, true, now, present) == Counted(t.removed, t.errored, present)
  {
    GoodPrefixMeaning(RouteList(conf).value);
  }

  /** The same for FTP, which needs no paramiko. */
  lemma FtpDispatch(conf: Dict, d: Local.Disk, w: Remote, paramiko: bool, now: int, present: set<string>)
    requires "tipo" in conf && conf["tipo"] == Str("ftp")
    requires RouteList(conf).Some? && AllGood(RouteList(conf).value)
    requires "host" in conf && "usuario" in conf && "contrasena" in conf
    ensures var es := RouteList(conf).value;
      var t := Ftp.Connection(w.ftp, w.fault, GoodPrefix(es), now, w.utcOffset, w.files);
      Process(conf, d, w, paramiko, now, present) == Counted(t.removed, t.errored, present)
  {
    GoodPrefixMeaning(RouteList(conf).value);
  }

  /** A malformed route entry on a remote connection that opens stops the
      route loop there: the routes before it are purged and counted, and the
      handler adds one error per configured route to those counts, whether
      or not the close would have failed. */
  lemma RemoteMalformed(conf: Dict, w: Remote, es: seq<RouteEntry>, now: int)
    requires !AllGood(es) && FaultOf(conf, w) != ConnectFails
    ensures var t := Ssh.Routes(w.shell, Commands.SudoPrefix(NeedsSudo(conf)), GoodPrefix(es), Ssh.ShellState([], 0, 0));
      SshBranch(conf, w, es) == Counts(t.removed, t.errored + |es|)
    ensures var t := Sftp.Routes(w.sftp, GoodPrefix(es), now, Tally(w.files, 0, 0));
      SftpBranch(conf, w, es, now) == Counts(t.removed, t.errored + |es|)
    ensures var t := Ftp.Routes(w.ftp, w.ftp.home, GoodPrefix(es), now, w.utcOffset, Tally(w.files, 0, 0));
      FtpBranch(conf, w, es, now) == Counts(t.removed, t.errored + |es|)
  {
    GoodPrefixMeaning(es);
  }

  /** The two ways of finishing differ only on a malformed entry, where the
      Python 2 back ends drop whatever the earlier routes counted: they
      agree exactly when every entry is well formed or nothing had been
      counted. */
  lemma FinishVariants(fault: ConnFault, es: seq<RouteEntry>, removed: nat, errored: nat)
    ensures Finish27(fault, es, removed, errored) == Finish(fault, es, removed, errored)
        <==> AllGood(es) || (removed == 0 && errored == 0)
    ensures !AllGood(es) ==> Finish27(fault, es, removed, errored) == Counts(0, |es|)
  {
    GoodPrefixMeaning(es);
  }

  /** In `limpieza_2.7.py` a malformed route entry makes the SFTP and FTP
      back ends return `(0, len(rutas))`, whatever the earlier routes did;
      with well-formed entries they return what those of `limpieza.py`
      return. */
  lemma Branches27(conf: Dict, w: Remote, es: seq<RouteEntry>, now: int)
    ensures !AllGood(es) ==> SftpBranch27(conf, w, es, now) == Counts(0, |es|) == FtpBranch27(conf, w, es, now)
    ensures AllGood(es) ==> SftpBranch27(conf, w, es, now) == SftpBranch(conf, w, es, now)
    ensures AllGood(es) ==> FtpBranch27(conf, w, es, now) == FtpBranch(conf, w, es, now)
  {
    GoodPrefixMeaning(es);
  }

  /** The files the local routes may delete: the candidates of each. */
  function LocalEligible(d: Local.Disk, rs: seq<RouteConfig>, now: int): set<string>
    decreases |rs|
  {
    if rs == [] then {} else LocalEligible(d, rs[..|rs| - 1], now) + Local.EligibleRoute(d, rs[|rs| - 1], now)
  }

  /** Over all its routes, the local branch deletes only candidate files
      and counts exactly the files it deleted. */
  lemma {:induction false} LocalRoutesSound(d: Local.Disk, rs: seq<RouteConfig>, now: int, present: set<string>)
    ensures var t := LocalRoutes(d, rs, now, present);
      Ledger.Shrinks(present, t.present, t.removed, LocalEligible(d, rs, now))
    decreases |rs|
  {
    if rs == [] {
      Ledger.Unchanged(present, {});
    } else {
      var init := rs[..|rs| - 1];
      var all := LocalEligible(d, rs, now);
      LocalRoutesSound(d, init, now, present);
      var t := LocalRoutes(d, init, now, present);
      Local.PurgeSound(d, rs[|rs| - 1], now, t.present);
      var u := Local.Purge(d, rs[|rs| - 1], now, t.present);
      Ledger.Widen(present, t.present, t.removed, LocalEligible(d, init, now), all);
      Ledger.Widen(t.present, u.present, u.removed, Local.EligibleRoute(d, rs[|rs| - 1], now), all);
      Ledger.Chain(present, t.present, u.present, t.removed, u.removed, all);
    }
  }

  /** The local files one connection may delete. */
  function Scope(conf: Dict, d: Local.Disk, now: int): set<string> {
    if IsLocal(conf) && RouteList(conf).Some? then LocalEligible(d, GoodPrefix(RouteList(conf).value), now) else {}
  }

  /** A connection deletes local files only when it is local, and then
      only candidates of its well-formed routes; it reports them all as
      removed unless a malformed entry makes it report `(0, len(rutas))`. */
  lemma ProcessSound(conf: Dict, d: Local.Disk, w: Remote, paramiko: bool, now: int, present: set<string>)
    ensures var p := Process(conf, d, w, paramiko, now, present);
      && p.present <= present
      && present - p.present <= Scope(conf, d, now)
      && (p.Counted? && IsLocal(conf) && AllGood(RouteList(conf).value) ==> p.removed == |present - p.present|)
      && (p.Counted? && IsLocal(conf) && !AllGood(RouteList(conf).value) ==> p.removed == 0 && p.errored == |RouteList(conf).value|)
  {
    var p := Process(conf, d, w, paramiko, now, present);
    if IsLocal(conf) && RouteList(conf).Some? {
      var es := RouteList(conf).value;
      GoodPrefixMeaning(es);
      LocalRoutesSound(d, GoodPrefix(es), now, present);
    } else {
      assert p.present == present;
    }
  }

  /** The local files the whole run may delete. */
  function RunScope(m: Registry, d: Local.Disk, now: int): set<string>
    decreases |m|
  {
    if m == [] then {} else RunScope(m[..|m| - 1], d, now) + Scope(m[|m| - 1].1, d, now)
  }

  lemma {:induction false} TotalsSound(m: Registry, d: Local.Disk, worlds: string -> Remote, paramiko: bool, now: int, present: set<string>)
    ensures var p := Totals(m, d, worlds, paramiko, now, present);
      p.present <= present && present - p.present <= RunScope(m, d, now)
    decreases |m|
  {
    if m != [] {
      var init := m[..|m| - 1];
      TotalsSound(init, d, worlds, paramiko, now, present);
      var p := Totals(init, d, worlds, paramiko, now, present);
      if !p.Crashed? {
        ProcessSound(m[|m| - 1].1, d, worlds(m[|m| - 1].0), paramiko, now, p.present);
      }
    }
  }

  /** The run deletes only local files that the age and mask of a local
      connection's route make candidates. */
  lemma RunSound(conns: Registry, creds: map<string, Dict>, d: Local.Disk, worlds: string -> Remote,
                 paramiko: bool, now: int, present: set<string>)
    ensures var e := Run(conns, creds, d, worlds, paramiko, now, present);
      e.present <= present && present - e.present <= RunScope(Merge(conns, creds), d, now)
  {
    TotalsSound(Merge(conns, creds), d, worlds, paramiko, now, present);
  }

  /** The run stops before touching anything when the merge is empty, and
      for missing dependencies exactly when paramiko is missing and the
      scan meets an SSH or SFTP connection before any without `tipo`. */
  lemma RunStops(conns: Registry, creds: map<string, Dict>, d: Local.Disk, worlds: string -> Remote,
                 paramiko: bool, now: int, present: set<string>)
    ensures var e := Run(conns, creds, d, worlds, paramiko, now, present);
      && (e.verdict == NoConnections <==> Merge(conns, creds) == [])
      && (e.verdict == MissingDependencies <==>
            Merge(conns, creds) != [] && !paramiko && exists i :: FirstShell(Merge(conns, creds), i))
      && (e.verdict == NoConnections || e.verdict == MissingDependencies ==> e.present == present)
  {
    NeedsParamikoMeaning(Merge(conns, creds));
  }

  /** A run that finishes never met the back ends' own "paramiko is not
      installed" answer: without paramiko, no merged connection is SSH or
      SFTP. */
  lemma FinishedWithoutParamiko(conns: Registry, creds: map<string, Dict>, d: Local.Disk, worlds: string -> Remote,
                                now: int, present: set<string>)
    requires Run(conns, creds, d, worlds, false, now, present).verdict.Finished?
    ensures var m := Merge(conns, creds);
      forall i :: 0 <= i < |m| ==> "tipo" in m[i].1 && !NeedsShellLibrary(m[i].1["tipo"])
  {
    NeedsParamikoFalse(Merge(conns, creds));
  }

  /** Once a connection has raised, the rest of the run is skipped. */
  lemma {:induction false} TotalsCrashed(m: Registry, j: int, d: Local.Disk, worlds: string -> Remote,
                                         paramiko: bool, now: int, present: set<string>)
    requires 0 <= j <= |m|
    requires Totals(m[..j], d, worlds, paramiko, now, present).Crashed?
    ensures Totals(m, d, worlds, paramiko, now, present) == Totals(m[..j], d, worlds, paramiko, now, present)
    decreases |m|
  {
    if j < |m| {
      var init := m[..|m| - 1];
      assert init[..j] == m[..j];
      TotalsCrashed(init, j, d, worlds, paramiko, now, present);
    } else {
      assert m[..j] == m;
    }
  }

  // ---------------------------------------------------------------------
  // The dispatch and the run as the program performs them.

  /** `eliminar_archivos_ssh(conexion)` once paramiko is known to be there. */
  method PurgeSsh(conf: Dict, w: Remote, es: seq<RouteEntry>) returns (c: Counts)
    ensures c == SshBranch(conf, w, es)
  {
    var fault := FaultOf(conf, w);
    if fault == ConnectFails {
      return Counts(0, |es|);
    }
    var session := new Ssh.SshSession(w.shell);
    session.PurgeRoutes(Commands.SudoPrefix(NeedsSudo(conf)), GoodPrefix(es));
    c := Finish(fault, es, session.removed, session.errored);
  }

  /** `eliminar_archivos_sftp(conexion)` once paramiko is known to be there. */
  method PurgeSftp(conf: Dict, w: Remote, es: seq<RouteEntry>, now: int) returns (c: Counts)
    ensures c == SftpBranch(conf, w, es, now)
  {
    var fault := FaultOf(conf, w);
    if fault == ConnectFails {
      return Counts(0, |es|);
    }
    var session := new Sftp.SftpSession(w.sftp, w.files);
    var _ := session.PurgeRoutes(GoodPrefix(es), now);
    c := Finish(fault, es, session.removed, session.errored);
  }

  /** `eliminar_archivos_ftp(conexion)` */
  method PurgeFtp(conf: Dict, w: Remote, es: seq<RouteEntry>, now: int) returns (c: Counts)
    ensures c == FtpBranch(conf, w, es, now)
  {
    var fault := FaultOf(conf, w);
    if fault == ConnectFails {
      return Counts(0, |es|);
    }
    var session := new Ftp.FtpSession(w.ftp, w.utcOffset, w.files);
    var _ := session.PurgeRoutes(GoodPrefix(es), now);
    c := Finish(fault, es, session.removed, session.errored);
  }

  /** `eliminar_archivos_sftp(conexion)` of `limpieza_2.7.py` once paramiko
      is known to be there. */
  method PurgeSftp27(conf: Dict, w: Remote, es: seq<RouteEntry>, now: int) returns (c: Counts)
    ensures c == SftpBranch27(conf, w, es, now)
  {
    var fault := FaultOf(conf, w);
    if fault == ConnectFails {
      return Counts(0, |es|);
    }
    var session := new Sftp.SftpSession(w.sftp, w.files);
    var _ := session.PurgeRoutes(GoodPrefix(es), now);
    c := Finish27(fault, es, session.removed, session.errored);
  }

  /** `eliminar_archivos_ftp(conexion)` of `limpieza_2.7.py` */
  method PurgeFtp27(conf: Dict, w: Remote, es: seq<RouteEntry>, now: int) returns (c: Counts)
    ensures c == FtpBranch27(conf, w, es, now)
  {
    var fault := FaultOf(conf, w);
    if fault == ConnectFails {
      return Counts(0, |es|);
    }
    var session := new Ftp.FtpSession(w.ftp, w.utcOffset, w.files);
    var _ := session.PurgeRoutes(GoodPrefix(es), now);
    c := Finish27(fault, es, session.removed, session.errored);
  }

  /** The local branch: one `eliminar_archivos_locales` per route, summed;
      a malformed entry raises into the handler of `procesar_conexion`. */
  method PurgeLocal(es: seq<RouteEntry>, now: int, purger: Local.LocalPurger) returns (p: Processed)
    modifies purger
    ensures p == LocalBranch(purger.disk, es, now, old(purger.present))
    ensures purger.present == p.present
  {
    GoodPrefixMeaning(es);
    ghost var rs := GoodPrefix(es);
    ghost var p0 := purger.present;
    var removedTotal: nat, erroredTotal: nat := 0, 0;
    var i := 0;
    while i < |es|
      invariant 0 <= i <= |rs|
      invariant LocalRoutes(purger.disk, rs[..i], now, p0) == Tally(purger.present, removedTotal, erroredTotal)
    {
      if es[i].Malformed? {
        assert i == |rs| && rs[..i] == rs;
        return Counted(0, |es|, purger.present);
      }
      assert rs[..i + 1][..i] == rs[..i];
      var removed, errored := purger.PurgeRoute(es[i].route, now);
      removedTotal, erroredTotal := removedTotal + removed, erroredTotal + errored;
      i := i + 1;
    }
    assert rs[..i] == rs;
    return Counted(removedTotal, erroredTotal, purger.present);
  }

  /** `procesar_conexion(alias, conexion)` */
  method ProcessConnection(conf: Dict, w: Remote, paramiko: bool, now: int, purger: Local.LocalPurger)
    returns (p: Processed)
    modifies purger
    ensures p == Process(conf, purger.disk, w, paramiko, now, old(purger.present))
    ensures purger.present == p.present
  {
    if "tipo" !in conf || !conf["tipo"].Str? {
      return Crashed(purger.present);
    }
    var tipo := conf["tipo"].s;
    if ShellTipo(tipo) && !paramiko {
      return Counted(0, 1, purger.present);
    }
    var routes := RouteList(conf);
    if routes.None? {
      return Crashed(purger.present);
    }
    var es := routes.value;
    if tipo == "local" {
      p := PurgeLocal(es, now, purger);
      return;
    }
    var c := Counts(0, |es|);
    if tipo == "ssh" {
      c := PurgeSsh(conf, w, es);
    } else if tipo == "sftp" {
      c := PurgeSftp(conf, w, es, now);
    } else if tipo == "ftp" {
      c := PurgeFtp(conf, w, es, now);
    }
    p := Counted(c.removed, c.errored, purger.present);
  }

  /** `eliminar_archivos_antiguos(config_file, credenciales_file)` on the
      loaded configuration and credentials. */
  method RunPurge(conns: Registry, creds: map<string, Dict>, worlds: string -> Remote, paramiko: bool, now: int,
                  purger: Local.LocalPurger) returns (verdict: Verdict)
    modifies purger
    ensures RunEnd(verdict, purger.present) == Run(conns, creds, purger.disk, worlds, paramiko, now, old(purger.present))
  {
    var file := new ConfigFile(conns);
    var m := file.Combine(creds);
    if m == [] {
      return NoConnections;
    }
    var deps := Dependencies(m, paramiko);
    if deps.None? {
      return Aborted;
    }
    if !deps.value {
      return MissingDependencies;
    }
    var p := ProcessAll(m, worlds, paramiko, now, purger);
    verdict := if p.Crashed? then Aborted else Finished(p.removed, p.errored);
  }

  /** The loop over the merged connections, adding up their pairs. */
  method ProcessAll(m: Registry, worlds: string -> Remote, paramiko: bool, now: int, purger: Local.LocalPurger)
    returns (p: Processed)
    modifies purger
    ensures p == Totals(m, purger.disk, worlds, paramiko, now, old(purger.present))
    ensures purger.present == p.present
  {
    ghost var p0 := purger.present;
    var removedTotal: nat, erroredTotal: nat := 0, 0;
    for i := 0 to |m|
      invariant Totals(m[..i], purger.disk, worlds, paramiko, now, p0) == Counted(removedTotal, erroredTotal, purger.present)
    {
      assert m[..i + 1][..i] == m[..i];
      var (alias, conf) := m[i];
      var q := ProcessConnection(conf, worlds(alias), paramiko, now, purger);
      if q.Crashed? {
        TotalsCrashed(m, i + 1, purger.disk, worlds, paramiko, now, p0);
        return q;
      }
      removedTotal, erroredTotal := removedTotal + q.removed, erroredTotal + q.errored;
    }
    assert m[..|m|] == m;
    p := Counted(removedTotal, erroredTotal, purger.present);
  }
}
