/**
  The FTP purge, `eliminar_archivos_ftp`: one connection serves all routes.
  For each route the purge changes to the route's directory (`cwd`), then
  the inner `procesar_directorio_ftp` reads `LIST path` and, line by line,
  skips lines of fewer than nine fields and the names `.` and `..`, walks
  lines that start with `d`, and for any other line asks `MDTM` for the
  file's time and deletes the file when it is older than the limit.
  Nothing changes the working directory back between routes, so a relative
  route is taken from wherever the last `cwd` that succeeded left the
  session. Paths inside a route are relative to the directory the route
  resolved to (`""` is that directory itself); a file is identified by
  that directory and its relative path.
*/
module Ftp {
  import opened Common
  import opened Rule
  import opened Session
  import opened FtpText
  import Ledger
  import Glob

  /** One `LIST` line with, for a file, the server's answer to `MDTM`,
      and for a directory the lines of its own listing. */
  datatype FtpNode = FtpNode(line: string, mdtm: Reply, children: seq<FtpNode>)

  /** The server: the directory a login starts in, the listing of each
      directory `cwd` can enter, the listings that fail (keyed by
      `Key(dir, path)`), and `DELE` answers that differ from the usual
      success reply. */
  datatype Server = Server(
    home: string,
    mount: map<string, seq<FtpNode>>,
    listFails: set<string>,
    deleteReplies: map<string, Reply>)

  const DeleteOk: Reply := Line("250 Requested file action okay, completed.")

  function DeleReply(srv: Server, key: string): Reply {
    if key in srv.deleteReplies then srv.deleteReplies[key] else DeleteOk
  }

  predicate NoFaults(srv: Server) {
    srv.listFails == {} && srv.deleteReplies == map[]
  }

  /** Identity of the entry `rel` below the directory `dir` a route
      resolved to. */
  function Key(dir: string, rel: string): string {
    dir + "/" + rel
  }

  /** `"{}/{}".format(path, nombre) if path else nombre` */
  function Child(path: string, name: string): string {
    if path == "" then name else path + "/" + name
  }

  predicate Dots(name: string) {
    name == "." || name == ".."
  }

  // ---------------------------------------------------------------------
  // Specification of the walk.

  /** A file line whose name passed the mask: `MDTM`, then `DELE` when the
      file is old enough. `error_perm` on either command is only warned
      about. */
  function FileStep(srv: Server, key: string, node: FtpNode, r: RouteConfig, now: int, utcOffset: int, s: Tally): Tally {
    match SendCmd(node.mdtm)
    case Returned(text) => StampStep(srv, key, ReadMdtm(text, utcOffset), r, now, s)
    case ErrorPerm => s
    case _ => s.(errored := s.errored + 1)
  }

  /** What follows a returned `MDTM` reply. Deleting a file that is
      already gone draws a 550 reply, which is `error_perm` as well. */
  function StampStep(srv: Server, key: string, age: Age, r: RouteConfig, now: int, s: Tally): Tally {
    match age
    case NoStamp => s
    case BadStamp => s.(errored := s.errored + 1)
    case Mtime(m) =>
      if !(m < Limit(now, r.dias)) || key !in s.present then s
      else DeleteStep(Delete(DeleReply(srv, key)), key, s)
  }

  function DeleteStep(o: Outcome, key: string, s: Tally): Tally {
    if o.Returned? then s.(present := s.present - {key}, removed := s.removed + 1)
    else if Counted(o) then s.(errored := s.errored + 1)
    else s
  }

  /** What one `LIST` line is to the walk. */
  datatype LineKind = Skipped | SubDir(path: string) | FileLine(path: string, name: string)

  function Classify(path: string, e: FtpNode): LineKind {
    match ListName(e.line)
    case None => Skipped
    case Some(name) =>
      if Dots(name) then Skipped
      else if DirLine(e.line) then SubDir(Child(path, name))
      else FileLine(Child(path, name), name)
  }

  /** The lines of one listing in order; `snap` holds the files that
      existed when the directory was listed. */
  function Entries(srv: Server, dir: string, path: string, kids: seq<FtpNode>, snap: set<string>,
                   r: RouteConfig, now: int, utcOffset: int, s: Tally): Tally
    decreases kids, 0
  {
    if kids == [] then s
    else
      var s1 := Entries(srv, dir, path, kids[..|kids| - 1], snap, r, now, utcOffset, s);
      var e := kids[|kids| - 1];
      match Classify(path, e)
      case Skipped => s1
      case SubDir(c) => Walk(srv, dir, c, e.children, r, now, utcOffset, s1)
      case FileLine(c, name) =>
        if Key(dir, c) !in snap || !Admits(name, r.mascara) then s1
        else FileStep(srv, Key(dir, c), e, r, now, utcOffset, s1)
  }

  /** `procesar_directorio_ftp(path)`: a `LIST` that fails costs one error. */
  function Walk(srv: Server, dir: string, path: string, kids: seq<FtpNode>,
                r: RouteConfig, now: int, utcOffset: int, s: Tally): Tally
    decreases kids, 1
  {
    if Key(dir, path) in srv.listFails then s.(errored := s.errored + 1)
    else Entries(srv, dir, path, kids, s.present, r, now, utcOffset, s)
  }

  // ---------------------------------------------------------------------
  // The working directory.

  /** The directory `ftp.cwd(ruta)` asks for from the working directory
      `cwd`: an absolute route as it is, a relative one below `cwd`, and
      the empty route, which `ftplib` sends as `CWD .`, `cwd` itself. The
      server's own handling of `.` and `..` inside a route is not
      modelled. */
  function Resolve(cwd: string, ruta: string): (d: string)
    ensures StartsWith(ruta, "/") ==> d == ruta
    ensures ruta == "" ==> d == cwd
    ensures ruta != "" && !StartsWith(ruta, "/") ==>
      StartsWith(d, cwd) && |cwd| + |ruta| <= |d| && d[|d| - |ruta|..] == ruta
  {
    if StartsWith(ruta, "/") then ruta
    else if ruta == "" then cwd
    else if cwd != "" && cwd[|cwd| - 1] == '/' then cwd + ruta
    else cwd + "/" + ruta
  }

  /** The working directory once `cwd` has been tried for each route in
      turn from `start`: a `cwd` that fails leaves it where it was, and
      the walk itself never changes it. */
  function Cwd(srv: Server, start: string, routes: seq<RouteConfig>): string
    decreases |routes|
  {
    if routes == [] then start
    else
      var c := Cwd(srv, start, routes[..|routes| - 1]);
      var d := Resolve(c, routes[|routes| - 1].ruta);
      if d in srv.mount then d else c
  }

  /** `ftp.cwd(ruta)` succeeds from the working directory `cwd`. */
  predicate RouteOpens(srv: Server, cwd: string, ruta: string) {
    Resolve(cwd, ruta) in srv.mount
  }

  /** One route from the working directory `cwd`: a `cwd` that fails
      costs one error; otherwise the directory it entered is walked. */
  function RouteStep(srv: Server, cwd: string, r: RouteConfig, now: int, utcOffset: int, s: Tally): Tally {
    var d := Resolve(cwd, r.ruta);
    if d in srv.mount then Walk(srv, d, "", srv.mount[d], r, now, utcOffset, s)
    else s.(errored := s.errored + 1)
  }

  function Routes(srv: Server, start: string, routes: seq<RouteConfig>, now: int, utcOffset: int, s: Tally): Tally
    decreases |routes|
  {
    if routes == [] then s
    else
      var init := routes[..|routes| - 1];
      RouteStep(srv, Cwd(srv, start, init), routes[|routes| - 1], now, utcOffset, Routes(srv, start, init, now, utcOffset, s))
  }

  function Reports(srv: Server, start: string, routes: seq<RouteConfig>, now: int, utcOffset: int, s: Tally): seq<Report>
    decreases |routes|
  {
    if routes == [] then []
    else
      var r := routes[|routes| - 1];
      var cwd := Cwd(srv, start, routes[..|routes| - 1]);
      var before := Routes(srv, start, routes[..|routes| - 1], now, utcOffset, s);
      var after := RouteStep(srv, cwd, r, now, utcOffset, before);
      Reports(srv, start, routes[..|routes| - 1], now, utcOffset, s)
      + [if RouteOpens(srv, cwd, r.ruta) then Verified(after.removed - before.removed, after.errored - before.errored) else Unreachable]
  }

  /** A connection logs in at the server's login directory. */
  function Connection(srv: Server, fault: ConnFault, routes: seq<RouteConfig>, now: int, utcOffset: int, present: set<string>): Tally {
    var s := Tally(present, 0, 0);
    if fault == ConnectFails then s.(errored := |routes|)
    else
      var t := Routes(srv, srv.home, routes, now, utcOffset, s);
      if fault == CloseFails then t.(errored := t.errored + |routes|) else t
  }

  /** A connection that cannot be opened reports one error per route and
      removes nothing; a failing close adds one error per route to what the
      routes counted. */
  lemma ConnectionFailures(srv: Server, fault: ConnFault, routes: seq<RouteConfig>, now: int, utcOffset: int, present: set<string>)
    ensures Connection(srv, ConnectFails, routes, now, utcOffset, present) == Tally(present, 0, |routes|)
    ensures fault == CloseFails ==>
      var t := Connection(srv, fault, routes, now, utcOffset, present);
      var h := Connection(srv, Healthy, routes, now, utcOffset, present);
      t == h.(errored := h.errored + |routes|)
  {
  }

  // ---------------------------------------------------------------------
  // The candidate files: plain-file lines whose name passes the mask and
  // whose `MDTM` reply gives a time before the limit.

  predicate FileCandidate(node: FtpNode, name: string, r: RouteConfig, now: int, utcOffset: int) {
    && Admits(name, r.mascara)
    && SendCmd(node.mdtm).Returned?
    && ReadMdtm(SendCmd(node.mdtm).text, utcOffset).Mtime?
    && ReadMdtm(SendCmd(node.mdtm).text, utcOffset).seconds < Limit(now, r.dias)
  }

  function Eligible(dir: string, path: string, kids: seq<FtpNode>, r: RouteConfig, now: int, utcOffset: int): set<string>
    decreases kids
  {
    if kids == [] then {}
    else
      var e := kids[|kids| - 1];
      Eligible(dir, path, kids[..|kids| - 1], r, now, utcOffset)
      + match Classify(path, e)
        case Skipped => {}
        case SubDir(c) => Eligible(dir, c, e.children, r, now, utcOffset)
        case FileLine(c, name) => if FileCandidate(e, name, r, now, utcOffset) then {Key(dir, c)} else {}
  }

  function EligibleRoutes(srv: Server, start: string, routes: seq<RouteConfig>, now: int, utcOffset: int): set<string>
    decreases |routes|
  {
    if routes == [] then {}
    else
      var init := routes[..|routes| - 1];
      var d := Resolve(Cwd(srv, start, init), routes[|routes| - 1].ruta);
      EligibleRoutes(srv, start, init, now, utcOffset)
      + (if d in srv.mount then Eligible(d, "", srv.mount[d], routes[|routes| - 1], now, utcOffset) else {})
  }

  function Size(kids: seq<FtpNode>): nat
    decreases kids
  {
    if kids == [] then 0
    else Size(kids[..|kids| - 1]) + 1 + Size(kids[|kids| - 1].children)
  }

  // ---------------------------------------------------------------------
  // Soundness.

  lemma FileStepSound(srv: Server, key: string, node: FtpNode, name: string, r: RouteConfig, now: int, utcOffset: int, s: Tally, allowed: set<string>)
    requires Admits(name, r.mascara)
    requires FileCandidate(node, name, r, now, utcOffset) ==> key in allowed
    ensures Accounted(s, FileStep(srv, key, node, r, now, utcOffset, s), allowed, 1)
  {
    var t := FileStep(srv, key, node, r, now, utcOffset, s);
    if t.present == s.present {
      Ledger.Unchanged(s.present, allowed);
    } else {
      Ledger.RemoveOne(s.present, key, allowed);
    }
  }

  lemma {:induction false} EntriesSound(srv: Server, dir: string, path: string, kids: seq<FtpNode>, snap: set<string>,
                                        r: RouteConfig, now: int, utcOffset: int, s: Tally)
    ensures Accounted(s, Entries(srv, dir, path, kids, snap, r, now, utcOffset, s), Eligible(dir, path, kids, r, now, utcOffset), Size(kids))
    decreases kids, 0
  {
    if kids == [] {
      AccountedRefl(s, {}, 0);
    } else {
      var init := kids[..|kids| - 1];
      var e := kids[|kids| - 1];
      var E := Eligible(dir, path, kids, r, now, utcOffset);
      var s1 := Entries(srv, dir, path, init, snap, r, now, utcOffset, s);
      var t := Entries(srv, dir, path, kids, snap, r, now, utcOffset, s);
      EntriesSound(srv, dir, path, init, snap, r, now, utcOffset, s);
      assert Accounted(s, s1, E, Size(init));
      match Classify(path, e)
      case Skipped =>
        AccountedRefl(s1, E, 0);
      case SubDir(c) =>
        WalkSound(srv, dir, c, e.children, r, now, utcOffset, s1);
        assert Accounted(s1, t, E, 1 + Size(e.children));
      case FileLine(c, name) =>
        if Key(dir, c) !in snap || !Admits(name, r.mascara) {
          AccountedRefl(s1, E, 0);
        } else {
          FileStepSound(srv, Key(dir, c), e, name, r, now, utcOffset, s1, E);
        }
      AccountedChain(s, s1, t, E, Size(init), Size(kids) - Size(init));
    }
  }

  lemma {:induction false} WalkSound(srv: Server, dir: string, path: string, kids: seq<FtpNode>,
                                     r: RouteConfig, now: int, utcOffset: int, s: Tally)
    ensures Accounted(s, Walk(srv, dir, path, kids, r, now, utcOffset, s), Eligible(dir, path, kids, r, now, utcOffset), 1 + Size(kids))
    decreases kids, 1
  {
    if Key(dir, path) in srv.listFails {
      AccountedOneError(s, Eligible(dir, path, kids, r, now, utcOffset), 1 + Size(kids));
    } else {
      EntriesSound(srv, dir, path, kids, s.present, r, now, utcOffset, s);
    }
  }

  lemma {:induction false} RoutesSound(srv: Server, start: string, routes: seq<RouteConfig>, now: int, utcOffset: int, s: Tally)
    ensures var t := Routes(srv, start, routes, now, utcOffset, s);
      && t.present <= s.present
      && s.present - t.present <= EligibleRoutes(srv, start, routes, now, utcOffset)
      && t.removed - s.removed == |s.present - t.present|
      && s.errored <= t.errored
    decreases |routes|
  {
    if routes != [] {
      var init := routes[..|routes| - 1];
      var r := routes[|routes| - 1];
      var E := EligibleRoutes(srv, start, routes, now, utcOffset);
      var s1 := Routes(srv, start, init, now, utcOffset, s);
      var d := Resolve(Cwd(srv, start, init), r.ruta);
      var t := RouteStep(srv, Cwd(srv, start, init), r, now, utcOffset, s1);
      RoutesSound(srv, start, init, now, utcOffset, s);
      assert Ledger.Shrinks(s.present, s1.present, s1.removed - s.removed, E);
      if d in srv.mount {
        WalkSound(srv, d, "", srv.mount[d], r, now, utcOffset, s1);
        assert Ledger.Shrinks(s1.present, t.present, t.removed - s1.removed, E);
      } else {
        Ledger.Unchanged(s1.present, E);
      }
      Ledger.Chain(s.present, s1.present, t.present, s1.removed - s.removed, t.removed - s1.removed, E);
    }
  }

  /** Only candidate files disappear — never a directory line, never a
      file whose time could not be read — and the removed total is the
      number of files that disappeared. */
  lemma ConnectionSound(srv: Server, fault: ConnFault, routes: seq<RouteConfig>, now: int, utcOffset: int, present: set<string>)
    ensures var t := Connection(srv, fault, routes, now, utcOffset, present);
      && t.present <= present
      && present - t.present <= EligibleRoutes(srv, srv.home, routes, now, utcOffset)
      && t.removed == |present - t.present|
  {
    if fault != ConnectFails {
      RoutesSound(srv, srv.home, routes, now, utcOffset, Tally(present, 0, 0));
    } else {
      assert present - present == {};
    }
  }

  // ---------------------------------------------------------------------
  // Completeness.

  lemma DeleteOkSucceeds()
    ensures Delete(DeleteOk).Returned?
  {
    var t := DeleteOk.text;
    assert t[0] == '2' && t[1] == '5' && t[2] == '0';
    assert t[..3] == "250";
  }

  lemma {:induction false} EntriesComplete(srv: Server, dir: string, path: string, kids: seq<FtpNode>, snap: set<string>,
                                           r: RouteConfig, now: int, utcOffset: int, s: Tally)
    requires NoFaults(srv) && s.present <= snap
    ensures Eligible(dir, path, kids, r, now, utcOffset) !! Entries(srv, dir, path, kids, snap, r, now, utcOffset, s).present
    decreases kids, 0
  {
    if kids != [] {
      var init := kids[..|kids| - 1];
      var e := kids[|kids| - 1];
      var s1 := Entries(srv, dir, path, init, snap, r, now, utcOffset, s);
      EntriesComplete(srv, dir, path, init, snap, r, now, utcOffset, s);
      EntriesSound(srv, dir, path, init, snap, r, now, utcOffset, s);
      match Classify(path, e)
      case Skipped =>
      case SubDir(c) =>
        WalkComplete(srv, dir, c, e.children, r, now, utcOffset, s1);
        WalkSound(srv, dir, c, e.children, r, now, utcOffset, s1);
      case FileLine(c, name) =>
        if Key(dir, c) in snap && Admits(name, r.mascara) {
          DeleteOkSucceeds();
          FileStepSound(srv, Key(dir, c), e, name, r, now, utcOffset, s1, {Key(dir, c)});
        }
    }
  }

  lemma {:induction false} WalkComplete(srv: Server, dir: string, path: string, kids: seq<FtpNode>,
                                        r: RouteConfig, now: int, utcOffset: int, s: Tally)
    requires NoFaults(srv)
    ensures Eligible(dir, path, kids, r, now, utcOffset) !! Walk(srv, dir, path, kids, r, now, utcOffset, s).present
    decreases kids, 1
  {
    EntriesComplete(srv, dir, path, kids, s.present, r, now, utcOffset, s);
  }

  lemma {:induction false} RoutesComplete(srv: Server, start: string, routes: seq<RouteConfig>, now: int, utcOffset: int, s: Tally)
    requires NoFaults(srv)
    ensures EligibleRoutes(srv, start, routes, now, utcOffset) !! Routes(srv, start, routes, now, utcOffset, s).present
    decreases |routes|
  {
    if routes != [] {
      var init := routes[..|routes| - 1];
      var r := routes[|routes| - 1];
      var s1 := Routes(srv, start, init, now, utcOffset, s);
      var d := Resolve(Cwd(srv, start, init), r.ruta);
      RoutesComplete(srv, start, init, now, utcOffset, s);
      if d in srv.mount {
        WalkComplete(srv, d, "", srv.mount[d], r, now, utcOffset, s1);
        WalkSound(srv, d, "", srv.mount[d], r, now, utcOffset, s1);
      }
    }
  }

  /** When every listing works and every `DELE` succeeds, the purge
      removes exactly the candidate files that were present. */
  lemma ConnectionComplete(srv: Server, routes: seq<RouteConfig>, now: int, utcOffset: int, present: set<string>)
    requires NoFaults(srv)
    ensures Connection(srv, Healthy, routes, now, utcOffset, present).present == present - EligibleRoutes(srv, srv.home, routes, now, utcOffset)
  {
    ConnectionSound(srv, Healthy, routes, now, utcOffset, present);
    RoutesComplete(srv, srv.home, routes, now, utcOffset, Tally(present, 0, 0));
  }

  // ---------------------------------------------------------------------
  // The working directory across routes.

  /** The session is always in its starting directory or in a directory
      some `cwd` entered. */
  lemma {:induction false} CwdKnown(srv: Server, start: string, routes: seq<RouteConfig>)
    ensures Cwd(srv, start, routes) == start || Cwd(srv, start, routes) in srv.mount
    decreases |routes|
  {
    if routes != [] {
      CwdKnown(srv, start, routes[..|routes| - 1]);
    }
  }

  /** A route whose `cwd` succeeds leaves the session in its directory, so
      a relative route after it is resolved below that directory. */
  lemma RelativeFollowsPrevious(srv: Server, start: string, routes: seq<RouteConfig>, i: int)
    requires 0 <= i < |routes|
    requires RouteOpens(srv, Cwd(srv, start, routes[..i]), routes[i].ruta)
    ensures var d := Resolve(Cwd(srv, start, routes[..i]), routes[i].ruta);
      && Cwd(srv, start, routes[..i + 1]) == d
      && (i + 1 < |routes| && routes[i + 1].ruta != "" && !StartsWith(routes[i + 1].ruta, "/") ==>
            StartsWith(Resolve(Cwd(srv, start, routes[..i + 1]), routes[i + 1].ruta), d))
  {
    assert routes[..i + 1][..i] == routes[..i];
  }

  /** When every route is absolute, where the session starts makes no
      difference to what the routes do or may delete. */
  lemma {:induction false} AbsoluteRoutesIgnoreStart(srv: Server, a: string, b: string, routes: seq<RouteConfig>,
                                                    now: int, utcOffset: int, s: Tally)
    requires forall i :: 0 <= i < |routes| ==> StartsWith(routes[i].ruta, "/")
    ensures Routes(srv, a, routes, now, utcOffset, s) == Routes(srv, b, routes, now, utcOffset, s)
    ensures EligibleRoutes(srv, a, routes, now, utcOffset) == EligibleRoutes(srv, b, routes, now, utcOffset)
    decreases |routes|
  {
    if routes != [] {
      var init := routes[..|routes| - 1];
      AbsoluteRoutesIgnoreStart(srv, a, b, init, now, utcOffset, s);
      var r := routes[|routes| - 1];
      assert Resolve(Cwd(srv, a, init), r.ruta) == r.ruta == Resolve(Cwd(srv, b, init), r.ruta);
    }
  }

  // ---------------------------------------------------------------------
  // How failures are counted.

  /** A refused `MDTM` (a 5xx reply) is only warned about. */
  lemma MdtmRefusedNotCounted(srv: Server, key: string, node: FtpNode, r: RouteConfig, now: int, utcOffset: int, s: Tally)
    requires node.mdtm.Line? && StartsWith(node.mdtm.text, "5")
    ensures FileStep(srv, key, node, r, now, utcOffset, s) == s
  {
    assert SendCmd(node.mdtm) == ErrorPerm;
  }

  /** A transient `MDTM` failure (a 4xx reply) or a broken connection counts
      one error. */
  lemma MdtmTransientCounted(srv: Server, key: string, node: FtpNode, r: RouteConfig, now: int, utcOffset: int, s: Tally)
    requires node.mdtm.Dropped? || (node.mdtm.Line? && StartsWith(node.mdtm.text, "4"))
    ensures FileStep(srv, key, node, r, now, utcOffset, s) == s.(errored := s.errored + 1)
  {
    assert SendCmd(node.mdtm) == ErrorTemp || SendCmd(node.mdtm) == ConnectionLost;
  }

  /** A 213 reply whose stamp does not parse counts one error; a returned
      reply of another code is ignored. */
  lemma MdtmStampCases(srv: Server, key: string, text: string, node: FtpNode, r: RouteConfig, now: int, utcOffset: int, s: Tally)
    requires node.mdtm == Line(text) && SendCmd(node.mdtm).Returned?
    ensures ReadMdtm(text, utcOffset) == BadStamp ==> FileStep(srv, key, node, r, now, utcOffset, s) == s.(errored := s.errored + 1)
    ensures !StartsWith(text, "213") ==> FileStep(srv, key, node, r, now, utcOffset, s) == s
  {
  }

  lemma {:induction false} EntriesAppend(srv: Server, dir: string, path: string, a: seq<FtpNode>, b: seq<FtpNode>, snap: set<string>,
                                         r: RouteConfig, now: int, utcOffset: int, s: Tally)
    ensures Entries(srv, dir, path, a + b, snap, r, now, utcOffset, s)
         == Entries(srv, dir, path, b, snap, r, now, utcOffset, Entries(srv, dir, path, a, snap, r, now, utcOffset, s))
    decreases |b|
  {
    if b == [] {
      assert a + b == a;
    } else {
      assert (a + b)[..|a + b| - 1] == a + b[..|b| - 1];
      assert (a + b)[|a + b| - 1] == b[|b| - 1];
      EntriesAppend(srv, dir, path, a, b[..|b| - 1], snap, r, now, utcOffset, s);
    }
  }

  lemma {:induction false} EntriesShift(srv: Server, dir: string, path: string, kids: seq<FtpNode>, snap: set<string>,
                                        r: RouteConfig, now: int, utcOffset: int, s: Tally)
    ensures Entries(srv, dir, path, kids, snap, r, now, utcOffset, s.(errored := s.errored + 1))
         == var t := Entries(srv, dir, path, kids, snap, r, now, utcOffset, s); t.(errored := t.errored + 1)
    decreases kids, 0
  {
    if kids != [] {
      var init := kids[..|kids| - 1];
      var e := kids[|kids| - 1];
      var u := s.(errored := s.errored + 1);
      EntriesShift(srv, dir, path, init, snap, r, now, utcOffset, s);
      var s1 := Entries(srv, dir, path, init, snap, r, now, utcOffset, s);
      var u1 := Entries(srv, dir, path, init, snap, r, now, utcOffset, u);
      assert u1 == s1.(errored := s1.errored + 1);
      var t := Entries(srv, dir, path, kids, snap, r, now, utcOffset, s);
      var tu := Entries(srv, dir, path, kids, snap, r, now, utcOffset, u);
      match Classify(path, e)
      case Skipped =>
        assert t == s1 && tu == u1;
      case SubDir(c) =>
        WalkShift(srv, dir, c, e.children, r, now, utcOffset, s1);
        assert t == Walk(srv, dir, c, e.children, r, now, utcOffset, s1);
        assert tu == Walk(srv, dir, c, e.children, r, now, utcOffset, u1);
      case FileLine(c, name) =>
        if Key(dir, c) in snap && Admits(name, r.mascara) {
          FileStepShift(srv, Key(dir, c), e, r, now, utcOffset, s1);
          assert t == FileStep(srv, Key(dir, c), e, r, now, utcOffset, s1);
          assert tu == FileStep(srv, Key(dir, c), e, r, now, utcOffset, u1);
        } else {
          assert t == s1 && tu == u1;
        }
    }
  }

  lemma DeleteStepShift(o: Outcome, key: string, s: Tally)
    ensures DeleteStep(o, key, s.(errored := s.errored + 1)) == var t := DeleteStep(o, key, s); t.(errored := t.errored + 1)
  {
  }

  lemma StampStepShift(srv: Server, key: string, age: Age, r: RouteConfig, now: int, s: Tally)
    ensures StampStep(srv, key, age, r, now, s.(errored := s.errored + 1))
         == var t := StampStep(srv, key, age, r, now, s); t.(errored := t.errored + 1)
  {
    if age.Mtime? {
      DeleteStepShift(Delete(DeleReply(srv, key)), key, s);
    }
  }

  lemma FileStepShift(srv: Server, key: string, node: FtpNode, r: RouteConfig, now: int, utcOffset: int, s: Tally)
    ensures FileStep(srv, key, node, r, now, utcOffset, s.(errored := s.errored + 1))
         == var t := FileStep(srv, key, node, r, now, utcOffset, s); t.(errored := t.errored + 1)
  {
    var o := SendCmd(node.mdtm);
    if o.Returned? {
      StampStepShift(srv, key, ReadMdtm(o.text, utcOffset), r, now, s);
    }
  }

  lemma {:induction false} WalkShift(srv: Server, dir: string, path: string, kids: seq<FtpNode>,
                                     r: RouteConfig, now: int, utcOffset: int, s: Tally)
    ensures Walk(srv, dir, path, kids, r, now, utcOffset, s.(errored := s.errored + 1))
         == var t := Walk(srv, dir, path, kids, r, now, utcOffset, s); t.(errored := t.errored + 1)
    decreases kids, 1
  {
    if Key(dir, path) !in srv.listFails {
      EntriesShift(srv, dir, path, kids, s.present, r, now, utcOffset, s);
    }
  }

  /** A sub-directory whose `LIST` fails costs exactly one error, and the
      rest of the listing is handled as if its line were absent. */
  lemma ListFailureIsolated(srv: Server, dir: string, path: string, a: seq<FtpNode>, x: FtpNode, b: seq<FtpNode>,
                            snap: set<string>, r: RouteConfig, now: int, utcOffset: int, s: Tally)
    requires Classify(path, x).SubDir? && Key(dir, Classify(path, x).path) in srv.listFails
    ensures Entries(srv, dir, path, a + [x] + b, snap, r, now, utcOffset, s)
         == var t := Entries(srv, dir, path, a + b, snap, r, now, utcOffset, s); t.(errored := t.errored + 1)
  {
    var s1 := Entries(srv, dir, path, a, snap, r, now, utcOffset, s);
    EntriesAppend(srv, dir, path, a + [x], b, snap, r, now, utcOffset, s);
    EntriesAppend(srv, dir, path, a, [x], snap, r, now, utcOffset, s);
    assert [x][..0] == [];
    assert Entries(srv, dir, path, [x], snap, r, now, utcOffset, s1) == s1.(errored := s1.errored + 1);
    EntriesShift(srv, dir, path, b, snap, r, now, utcOffset, s1);
    EntriesAppend(srv, dir, path, a, b, snap, r, now, utcOffset, s);
  }

  /** The per-route summaries add up to the connection's counters. */
  lemma {:induction false} ReportsSum(srv: Server, start: string, routes: seq<RouteConfig>, now: int, utcOffset: int, s: Tally)
    ensures var t := Routes(srv, start, routes, now, utcOffset, s);
      && |Reports(srv, start, routes, now, utcOffset, s)| == |routes|
      && t.removed == s.removed + SumRemoved(Reports(srv, start, routes, now, utcOffset, s))
      && t.errored == s.errored + SumErrored(Reports(srv, start, routes, now, utcOffset, s))
    decreases |routes|
  {
    if routes != [] {
      var init := routes[..|routes| - 1];
      ReportsSum(srv, start, init, now, utcOffset, s);
      var rs := Reports(srv, start, routes, now, utcOffset, s);
      assert rs[..|rs| - 1] == Reports(srv, start, init, now, utcOffset, s);
    }
  }

  /** What the route loop adds for the last of `routes`. */
  lemma RouteSnoc(srv: Server, start: string, routes: seq<RouteConfig>, now: int, utcOffset: int, s: Tally)
    requires routes != []
    ensures var init := routes[..|routes| - 1];
      var r := routes[|routes| - 1];
      var cwd := Cwd(srv, start, init);
      var before := Routes(srv, start, init, now, utcOffset, s);
      var after := RouteStep(srv, cwd, r, now, utcOffset, before);
      && Routes(srv, start, routes, now, utcOffset, s) == after
      && Cwd(srv, start, routes) == (if RouteOpens(srv, cwd, r.ruta) then Resolve(cwd, r.ruta) else cwd)
      && Reports(srv, start, routes, now, utcOffset, s)
         == Reports(srv, start, init, now, utcOffset, s)
            + [if RouteOpens(srv, cwd, r.ruta) then Verified(after.removed - before.removed, after.errored - before.errored) else Unreachable]
  {
  }

  /** One turn of the route loop: the route `routes[i]` taken from where
      the routes before it left the directory, the counters and the
      summaries extends all three to `routes[..i + 1]`. */
  lemma RouteLoopStep(srv: Server, start: string, routes: seq<RouteConfig>, i: nat, now: int, utcOffset: int, s: Tally,
                      cwd: string, before: Tally, after: Tally, cwd': string, report: Report)
    requires i < |routes|
    requires cwd == Cwd(srv, start, routes[..i])
    requires before == Routes(srv, start, routes[..i], now, utcOffset, s)
    requires after == RouteStep(srv, cwd, routes[i], now, utcOffset, before)
    requires cwd' == if RouteOpens(srv, cwd, routes[i].ruta) then Resolve(cwd, routes[i].ruta) else cwd
    requires report == if RouteOpens(srv, cwd, routes[i].ruta)
      then Verified(after.removed - before.removed, after.errored - before.errored) else Unreachable
    ensures cwd' == Cwd(srv, start, routes[..i + 1])
    ensures after == Routes(srv, start, routes[..i + 1], now, utcOffset, s)
    ensures Reports(srv, start, routes[..i], now, utcOffset, s) + [report] == Reports(srv, start, routes[..i + 1], now, utcOffset, s)
  {
    assert routes[..i + 1][..i] == routes[..i];
    RouteSnoc(srv, start, routes[..i + 1], now, utcOffset, s);
  }

  // ---------------------------------------------------------------------
  // The purge as the program runs it.

  class FtpSession {
    const srv: Server
    const utcOffset: int
    var cwd: string
    var present: set<string>
    var removed: nat
    var errored: nat

    function State(): Tally
      reads this
    {
      Tally(present, removed, errored)
    }

    constructor (srv: Server, utcOffset: int, present: set<string>)
      ensures this.srv == srv && this.utcOffset == utcOffset && cwd == srv.home && State() == Tally(present, 0, 0)
    {
      this.srv := srv;
      this.utcOffset := utcOffset;
      cwd := srv.home;
      this.present := present;
      removed, errored := 0, 0;
    }

    method HandleFile(key: string, node: FtpNode, r: RouteConfig, now: int)
      modifies this
      ensures State() == FileStep(srv, key, node, r, now, utcOffset, old(State()))
      ensures cwd == old(cwd)
    {
      var o := SendCmd(node.mdtm);
      if o.Returned? {
        HandleStamp(key, ReadMdtm(o.text, utcOffset), r, now);
      } else if o != ErrorPerm {
        errored := errored + 1;
      }
    }

    method HandleStamp(key: string, age: Age, r: RouteConfig, now: int)
      modifies this
      ensures State() == StampStep(srv, key, age, r, now, old(State()))
      ensures cwd == old(cwd)
    {
      match age
      case NoStamp =>
      case BadStamp =>
        errored := errored + 1;
      case Mtime(m) =>
        if m < Limit(now, r.dias) && key in present {
          var o := Delete(DeleReply(srv, key));
          if o.Returned? {
            present := present - {key};
            removed := removed + 1;
          } else if Counted(o) {
            errored := errored + 1;
          }
        }
    }

    /** `procesar_directorio_ftp(path, dias, mascara)` */
    method WalkDir(dir: string, path: string, kids: seq<FtpNode>, r: RouteConfig, now: int)
      modifies this
      ensures State() == Walk(srv, dir, path, kids, r, now, utcOffset, old(State()))
      ensures cwd == old(cwd)
      decreases kids
    {
      if Key(dir, path) in srv.listFails {
        errored := errored + 1;
        return;
      }
      ghost var s0 := State();
      var snap := present;
      for i := 0 to |kids|
        invariant State() == Entries(srv, dir, path, kids[..i], snap, r, now, utcOffset, s0)
        invariant cwd == old(cwd)
      {
        assert kids[..i + 1][..i] == kids[..i];
        var e := kids[i];
        var kind := Classify(path, e);
        if kind.SubDir? {
          WalkDir(dir, kind.path, e.children, r, now);
        } else if kind.FileLine? && Key(dir, kind.path) in snap && Admits(kind.name, r.mascara) {
          HandleFile(Key(dir, kind.path), e, r, now);
        }
      }
      assert kids[..|kids|] == kids;
    }

    /** One route: `ftp.cwd(ruta)`, then the walk of the directory it
        entered, summed up as the difference of the counters. */
    method PurgeRoute(r: RouteConfig, now: int) returns (report: Report)
      modifies this
      ensures State() == RouteStep(srv, old(cwd), r, now, utcOffset, old(State()))
      ensures report == if RouteOpens(srv, old(cwd), r.ruta)
        then Verified(removed - old(removed), errored - old(errored)) else Unreachable
      ensures cwd == if RouteOpens(srv, old(cwd), r.ruta) then Resolve(old(cwd), r.ruta) else old(cwd)
    {
      var d := Resolve(cwd, r.ruta);
      if d in srv.mount {
        var removedBefore, erroredBefore := removed, errored;
        WalkDir(d, "", srv.mount[d], r, now);
        report := Verified(removed - removedBefore, errored - erroredBefore);
        cwd := d;
      } else {
        errored := errored + 1;
        report := Unreachable;
      }
    }

    /** The route loop; the working directory is never set back. */
    method PurgeRoutes(routes: seq<RouteConfig>, now: int) returns (reports: seq<Report>)
      modifies this
      ensures State() == Routes(srv, old(cwd), routes, now, utcOffset, old(State()))
      ensures reports == Reports(srv, old(cwd), routes, now, utcOffset, old(State()))
      ensures cwd == Cwd(srv, old(cwd), routes)
    {
      ghost var s0 := State();
      ghost var start := cwd;
      reports := [];
      for i := 0 to |routes|
        invariant cwd == Cwd(srv, start, routes[..i])
        invariant State() == Routes(srv, start, routes[..i], now, utcOffset, s0)
        invariant reports == Reports(srv, start, routes[..i], now, utcOffset, s0)
      {
        ghost var before, cwdBefore := State(), cwd;
        var report := PurgeRoute(routes[i], now);
        RouteLoopStep(srv, start, routes, i, now, utcOffset, s0, cwdBefore, before, State(), cwd, report);
        reports := reports + [report];
      }
      assert routes[..|routes|] == routes;
    }

    /** `eliminar_archivos_ftp(conexion)` */
    method PurgeConnection(fault: ConnFault, routes: seq<RouteConfig>, now: int)
      returns (removedTotal: nat, erroredTotal: nat, reports: seq<Report>)
      modifies this
      ensures var t := Connection(srv, fault, routes, now, utcOffset, old(present));
        present == t.present && removedTotal == t.removed && erroredTotal == t.errored
      ensures fault != ConnectFails ==> cwd == Cwd(srv, srv.home, routes)
      ensures fault != ConnectFails ==> reports == Reports(srv, srv.home, routes, now, utcOffset, Tally(old(present), 0, 0))
      ensures fault == ConnectFails ==> reports == []
    {
      removed, errored := 0, 0;
      cwd := srv.home;
      reports := [];
      if fault == ConnectFails {
        return 0, |routes|, [];
      }
      reports := PurgeRoutes(routes, now);
      removedTotal, erroredTotal := removed, errored;
      if fault == CloseFails {
        erroredTotal := erroredTotal + |routes|;
      }
    }
  }
}
