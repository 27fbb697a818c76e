/**
  The SFTP purge, `eliminar_archivos_sftp`: one connection serves all
  routes. For each route, `listdir(ruta)` is the probe; then the inner
  `procesar_directorio_sftp` lists the directory with its attributes and,
  for every entry, tries `listdir` on it: when that succeeds the entry is a
  directory and is walked, otherwise it is handled as a file (mask, then
  `st_mtime < limit`, then `remove`). The counters are shared by all routes
  and each route's summary is the difference of the counters before and
  after it.
*/
module Sftp {
  import opened Common
  import opened Rule
  import opened FsTree
  import opened Session
  import Ledger
  import Glob

  /** The remote file system: the tree at each path, and the paths where
      `listdir`, `listdir_attr` or `remove` fails. */
  datatype Server = Server(
    mount: map<string, Node>,
    probeFails: set<string>,
    attrFails: set<string>,
    deleteFails: set<string>)

  predicate NoFaults(srv: Server) {
    srv.probeFails == {} && srv.attrFails == {} && srv.deleteFails == {}
  }

  /** `"{}/{}".format(parent, name).replace('//', '/')` */
  function ChildPath(parent: string, name: string): string {
    CollapseSlashes(parent + "/" + name)
  }

  predicate Dots(name: string) {
    name == "." || name == ".."
  }

  // ---------------------------------------------------------------------
  // Specification of the walk.

  /** An entry whose `listdir` failed: mask, age, then `remove`. Removing a
      directory, or a file that is gone, fails like a refused removal. */
  function Leaf(srv: Server, c: string, e: Node, r: RouteConfig, now: int, s: Tally): Tally {
    if !Admits(e.name, r.mascara) || !OldEnough(e.mtime, now, r.dias) then s
    else if e.File? && c in s.present && c !in srv.deleteFails then s.(present := s.present - {c}, removed := s.removed + 1)
    else s.(errored := s.errored + 1)
  }

  /** The entries of one listing in order; `snap` holds the files that
      existed when the directory was listed. */
  function Entries(srv: Server, p: string, kids: seq<Node>, snap: set<string>, r: RouteConfig, now: int, s: Tally): Tally
    decreases kids, 0
  {
    if kids == [] then s
    else
      var s1 := Entries(srv, p, kids[..|kids| - 1], snap, r, now, s);
      var e := kids[|kids| - 1];
      var c := ChildPath(p, e.name);
      if Dots(e.name) || (e.File? && c !in snap) then s1
      else if e.Dir? && c !in srv.probeFails then Walk(srv, c, e.children, r, now, s1)
      else Leaf(srv, c, e, r, now, s1)
  }

  /** `procesar_directorio_sftp(p)`: a listing that fails costs one error. */
  function Walk(srv: Server, p: string, kids: seq<Node>, r: RouteConfig, now: int, s: Tally): Tally
    decreases kids, 1
  {
    if p in srv.attrFails then s.(errored := s.errored + 1)
    else Entries(srv, p, kids, s.present, r, now, s)
  }

  /** `sftp.listdir(ruta)` succeeds. */
  predicate RouteOpens(srv: Server, ruta: string) {
    ruta in srv.mount && srv.mount[ruta].Dir? && ruta !in srv.probeFails
  }

  function RouteStep(srv: Server, r: RouteConfig, now: int, s: Tally): Tally {
    if RouteOpens(srv, r.ruta) then Walk(srv, r.ruta, srv.mount[r.ruta].children, r, now, s)
    else s.(errored := s.errored + 1)
  }

  function Routes(srv: Server, routes: seq<RouteConfig>, now: int, s: Tally): Tally
    decreases |routes|
  {
    if routes == [] then s
    else RouteStep(srv, routes[|routes| - 1], now, Routes(srv, routes[..|routes| - 1], now, s))
  }

  /** The summary line of each route. */
  function Reports(srv: Server, routes: seq<RouteConfig>, now: int, s: Tally): seq<Report>
    decreases |routes|
  {
    if routes == [] then []
    else
      var r := routes[|routes| - 1];
      var before := Routes(srv, routes[..|routes| - 1], now, s);
      var after := RouteStep(srv, r, now, before);
      Reports(srv, routes[..|routes| - 1], now, s)
      + [if RouteOpens(srv, r.ruta) then Verified(after.removed - before.removed, after.errored - before.errored) else Unreachable]
  }

  /** The whole connection; without paramiko it returns (0, 1) at once. */
  function Connection(srv: Server, paramiko: bool, fault: ConnFault, routes: seq<RouteConfig>, now: int, present: set<string>): Tally {
    var s := Tally(present, 0, 0);
    if !paramiko then s.(errored := 1)
    else if fault == ConnectFails then s.(errored := |routes|)
    else
      var t := Routes(srv, routes, now, s);
      if fault == CloseFails then t.(errored := t.errored + |routes|) else t
  }

  /** Without paramiko the connection reports (0, 1) and removes nothing;
      when it cannot be opened it reports one error per route; a failing
      close adds one error per route to what the routes counted. */
  lemma ConnectionFailures(srv: Server, fault: ConnFault, routes: seq<RouteConfig>, now: int, present: set<string>)
    ensures Connection(srv, false, fault, routes, now, present) == Tally(present, 0, 1)
    ensures Connection(srv, true, ConnectFails, routes, now, present) == Tally(present, 0, |routes|)
    ensures fault == CloseFails ==>
      var t := Connection(srv, true, fault, routes, now, present);
      var h := Connection(srv, true, Healthy, routes, now, present);
      t == h.(errored := h.errored + |routes|)
  {
  }

  // ---------------------------------------------------------------------
  // The candidate files, independent of faults and of the walk order.

  function Eligible(p: string, kids: seq<Node>, r: RouteConfig, now: int): set<string>
    decreases kids
  {
    if kids == [] then {}
    else
      var e := kids[|kids| - 1];
      var c := ChildPath(p, e.name);
      Eligible(p, kids[..|kids| - 1], r, now)
      + (if Dots(e.name) then {}
         else if e.Dir? then Eligible(c, e.children, r, now)
         else if Candidate(e.name, e.mtime, r, now) then {c}
         else {})
  }

  function EligibleRoutes(srv: Server, routes: seq<RouteConfig>, now: int): set<string>
    decreases |routes|
  {
    if routes == [] then {}
    else
      var r := routes[|routes| - 1];
      EligibleRoutes(srv, routes[..|routes| - 1], now)
      + (if r.ruta in srv.mount && srv.mount[r.ruta].Dir? then Eligible(r.ruta, srv.mount[r.ruta].children, r, now) else {})
  }

  /** Number of entries in a listing, counted through every sub-directory. */
  function Size(kids: seq<Node>): nat
    decreases kids
  {
    if kids == [] then 0
    else
      var e := kids[|kids| - 1];
      Size(kids[..|kids| - 1]) + 1 + (if e.Dir? then Size(e.children) else 0)
  }

  lemma LeafSound(srv: Server, c: string, e: Node, r: RouteConfig, now: int, s: Tally, allowed: set<string>)
    requires e.File? && Candidate(e.name, e.mtime, r, now) ==> c in allowed
    ensures Accounted(s, Leaf(srv, c, e, r, now, s), allowed, 1)
  {
    var t := Leaf(srv, c, e, r, now, s);
    if t.present == s.present {
      Ledger.Unchanged(s.present, allowed);
    } else {
      Ledger.RemoveOne(s.present, c, allowed);
    }
  }

  // ---------------------------------------------------------------------
  // Soundness.

  lemma {:induction false} EntriesSound(srv: Server, p: string, kids: seq<Node>, snap: set<string>, r: RouteConfig, now: int, s: Tally)
    ensures Accounted(s, Entries(srv, p, kids, snap, r, now, s), Eligible(p, kids, r, now), Size(kids))
    decreases kids, 0
  {
    if kids == [] {
      AccountedRefl(s, {}, 0);
    } else {
      var init := kids[..|kids| - 1];
      var e := kids[|kids| - 1];
      var c := ChildPath(p, e.name);
      var E := Eligible(p, kids, r, now);
      var s1 := Entries(srv, p, init, snap, r, now, s);
      var t := Entries(srv, p, kids, snap, r, now, s);
      EntriesSound(srv, p, init, snap, r, now, s);
      assert Accounted(s, s1, E, Size(init));
      if Dots(e.name) || (e.File? && c !in snap) {
        AccountedRefl(s1, E, 0);
      } else if e.Dir? && c !in srv.probeFails {
        WalkSound(srv, c, e.children, r, now, s1);
        assert Accounted(s1, t, E, 1 + Size(e.children));
      } else {
        LeafSound(srv, c, e, r, now, s1, E);
      }
      AccountedChain(s, s1, t, E, Size(init), Size(kids) - Size(init));
    }
  }

  lemma {:induction false} WalkSound(srv: Server, p: string, kids: seq<Node>, r: RouteConfig, now: int, s: Tally)
    ensures Accounted(s, Walk(srv, p, kids, r, now, s), Eligible(p, kids, r, now), 1 + Size(kids))
    decreases kids, 1
  {
    if p in srv.attrFails {
      AccountedOneError(s, Eligible(p, kids, r, now), 1 + Size(kids));
    } else {
      EntriesSound(srv, p, kids, s.present, r, now, s);
    }
  }

  lemma {:induction false} RoutesSound(srv: Server, routes: seq<RouteConfig>, now: int, s: Tally)
    ensures var t := Routes(srv, routes, now, s);
      && t.present <= s.present
      && s.present - t.present <= EligibleRoutes(srv, routes, now)
      && t.removed - s.removed == |s.present - t.present|
      && s.errored <= t.errored
    decreases |routes|
  {
    if routes != [] {
      var init := routes[..|routes| - 1];
      var r := routes[|routes| - 1];
      var E := EligibleRoutes(srv, routes, now);
      var s1 := Routes(srv, init, now, s);
      RoutesSound(srv, init, now, s);
      assert Ledger.Shrinks(s.present, s1.present, s1.removed - s.removed, E);
      if RouteOpens(srv, r.ruta) {
        var kids := srv.mount[r.ruta].children;
        WalkSound(srv, r.ruta, kids, r, now, s1);
        assert Ledger.Shrinks(s1.present, RouteStep(srv, r, now, s1).present, RouteStep(srv, r, now, s1).removed - s1.removed, E);
      } else {
        Ledger.Unchanged(s1.present, E);
      }
      Ledger.Chain(s.present, s1.present, Routes(srv, routes, now, s).present,
        s1.removed - s.removed, Routes(srv, routes, now, s).removed - s1.removed, E);
    }
  }

  /** Only candidate files under the routes disappear (never a directory,
      never a file the mask or the age keeps), and the removed total is the
      number of files that disappeared. */
  lemma ConnectionSound(srv: Server, paramiko: bool, fault: ConnFault, routes: seq<RouteConfig>, now: int, present: set<string>)
    ensures var t := Connection(srv, paramiko, fault, routes, now, present);
      && t.present <= present
      && present - t.present <= EligibleRoutes(srv, routes, now)
      && t.removed == |present - t.present|
  {
    if paramiko && fault != ConnectFails {
      RoutesSound(srv, routes, now, Tally(present, 0, 0));
    } else {
      assert present - present == {};
    }
  }

  // ---------------------------------------------------------------------
  // Completeness: with nothing failing, every candidate file goes.

  lemma {:induction false} EntriesComplete(srv: Server, p: string, kids: seq<Node>, snap: set<string>, r: RouteConfig, now: int, s: Tally)
    requires NoFaults(srv) && s.present <= snap
    ensures Eligible(p, kids, r, now) !! Entries(srv, p, kids, snap, r, now, s).present
    decreases kids, 0
  {
    if kids != [] {
      var init := kids[..|kids| - 1];
      var e := kids[|kids| - 1];
      var c := ChildPath(p, e.name);
      var s1 := Entries(srv, p, init, snap, r, now, s);
      EntriesComplete(srv, p, init, snap, r, now, s);
      EntriesSound(srv, p, init, snap, r, now, s);
      if Dots(e.name) || (e.File? && c !in snap) {
      } else if e.Dir? {
        WalkComplete(srv, c, e.children, r, now, s1);
        WalkSound(srv, c, e.children, r, now, s1);
      } else {
        LeafSound(srv, c, e, r, now, s1, {c});
      }
    }
  }

  lemma {:induction false} WalkComplete(srv: Server, p: string, kids: seq<Node>, r: RouteConfig, now: int, s: Tally)
    requires NoFaults(srv)
    ensures Eligible(p, kids, r, now) !! Walk(srv, p, kids, r, now, s).present
    decreases kids, 1
  {
    EntriesComplete(srv, p, kids, s.present, r, now, s);
  }

  lemma {:induction false} RoutesComplete(srv: Server, routes: seq<RouteConfig>, now: int, s: Tally)
    requires NoFaults(srv)
    ensures EligibleRoutes(srv, routes, now) !! Routes(srv, routes, now, s).present
    decreases |routes|
  {
    if routes != [] {
      var init := routes[..|routes| - 1];
      var r := routes[|routes| - 1];
      var s1 := Routes(srv, init, now, s);
      RoutesComplete(srv, init, now, s);
      if RouteOpens(srv, r.ruta) {
        WalkComplete(srv, r.ruta, srv.mount[r.ruta].children, r, now, s1);
        WalkSound(srv, r.ruta, srv.mount[r.ruta].children, r, now, s1);
      }
    }
  }

  /** On a healthy connection where nothing fails, the purge removes
      exactly the candidate files that were present. */
  lemma ConnectionComplete(srv: Server, routes: seq<RouteConfig>, now: int, present: set<string>)
    requires NoFaults(srv)
    ensures Connection(srv, true, Healthy, routes, now, present).present == present - EligibleRoutes(srv, routes, now)
  {
    ConnectionSound(srv, true, Healthy, routes, now, present);
    RoutesComplete(srv, routes, now, Tally(present, 0, 0));
  }

  /** A directory that cannot be listed costs exactly one error, and the
      rest of the listing is handled as if that entry were absent. */
  lemma ListFailureIsolated(srv: Server, p: string, a: seq<Node>, x: Node, b: seq<Node>, snap: set<string>, r: RouteConfig, now: int, s: Tally)
    requires x.Dir? && !Dots(x.name)
    requires ChildPath(p, x.name) !in srv.probeFails && ChildPath(p, x.name) in srv.attrFails
    ensures Entries(srv, p, a + [x] + b, snap, r, now, s)
         == var t := Entries(srv, p, a + b, snap, r, now, s); t.(errored := t.errored + 1)
  {
    var s1 := Entries(srv, p, a, snap, r, now, s);
    EntriesAppend(srv, p, a + [x], b, snap, r, now, s);
    EntriesAppend(srv, p, a, [x], snap, r, now, s);
    assert [x][..0] == [];
    assert Entries(srv, p, [x], snap, r, now, s1) == s1.(errored := s1.errored + 1);
    EntriesShift(srv, p, b, snap, r, now, s1);
    EntriesAppend(srv, p, a, b, snap, r, now, s);
  }

  lemma {:induction false} EntriesAppend(srv: Server, p: string, a: seq<Node>, b: seq<Node>, snap: set<string>, r: RouteConfig, now: int, s: Tally)
    ensures Entries(srv, p, a + b, snap, r, now, s) == Entries(srv, p, b, snap, r, now, Entries(srv, p, a, snap, r, now, s))
    decreases |b|
  {
    if b == [] {
      assert a + b == a;
    } else {
      assert (a + b)[..|a + b| - 1] == a + b[..|b| - 1];
      assert (a + b)[|a + b| - 1] == b[|b| - 1];
      EntriesAppend(srv, p, a, b[..|b| - 1], snap, r, now, s);
    }
  }

  /** The walk never looks at the error counter: starting with one more
      error ends with one more error. */
  lemma {:induction false} EntriesShift(srv: Server, p: string, kids: seq<Node>, snap: set<string>, r: RouteConfig, now: int, s: Tally)
    ensures Entries(srv, p, kids, snap, r, now, s.(errored := s.errored + 1))
         == var t := Entries(srv, p, kids, snap, r, now, s); t.(errored := t.errored + 1)
    decreases kids, 0
  {
    if kids != [] {
      var init := kids[..|kids| - 1];
      var e := kids[|kids| - 1];
      var c := ChildPath(p, e.name);
      EntriesShift(srv, p, init, snap, r, now, s);
      var s1 := Entries(srv, p, init, snap, r, now, s);
      if !Dots(e.name) && e.Dir? && c !in srv.probeFails {
        WalkShift(srv, c, e.children, r, now, s1);
      }
    }
  }

  lemma {:induction false} WalkShift(srv: Server, p: string, kids: seq<Node>, r: RouteConfig, now: int, s: Tally)
    ensures Walk(srv, p, kids, r, now, s.(errored := s.errored + 1))
         == var t := Walk(srv, p, kids, r, now, s); t.(errored := t.errored + 1)
    decreases kids, 1
  {
    if p !in srv.attrFails {
      EntriesShift(srv, p, kids, s.present, r, now, s);
    }
  }

  /** The per-route summaries add up to the connection's counters: removed
      files are all reported by routes, and every error belongs to a route
      delta or to an unreachable route. */
  lemma {:induction false} ReportsSum(srv: Server, routes: seq<RouteConfig>, now: int, s: Tally)
    ensures var t := Routes(srv, routes, now, s);
      && |Reports(srv, routes, now, s)| == |routes|
      && t.removed == s.removed + SumRemoved(Reports(srv, routes, now, s))
      && t.errored == s.errored + SumErrored(Reports(srv, routes, now, s))
    decreases |routes|
  {
    if routes != [] {
      var init := routes[..|routes| - 1];
      var r := routes[|routes| - 1];
      var before := Routes(srv, init, now, s);
      ReportsSum(srv, init, now, s);
      if RouteOpens(srv, r.ruta) {
        WalkSound(srv, r.ruta, srv.mount[r.ruta].children, r, now, before);
      }
      var rs := Reports(srv, routes, now, s);
      assert rs[..|rs| - 1] == Reports(srv, init, now, s);
    }
  }

  // ---------------------------------------------------------------------
  // The purge as the program runs it.

  class SftpSession {
    const srv: Server
    var present: set<string>
    var removed: nat
    var errored: nat

    function State(): Tally
      reads this
    {
      Tally(present, removed, errored)
    }

    constructor (srv: Server, present: set<string>)
      ensures this.srv == srv && State() == Tally(present, 0, 0)
    {
      this.srv := srv;
      this.present := present;
      removed, errored := 0, 0;
    }

    method HandleLeaf(c: string, e: Node, r: RouteConfig, now: int)
      modifies this
      ensures State() == Leaf(srv, c, e, r, now, old(State()))
    {
      if MaskActive(r.mascara) && !Glob.Matches(e.name, r.mascara.value) {
        return;
      }
      if e.mtime < Limit(now, r.dias) {
        if e.File? && c in present && c !in srv.deleteFails {
          present := present - {c};
          removed := removed + 1;
        } else {
          errored := errored + 1;
        }
      }
    }

    /** `procesar_directorio_sftp(p, dias, mascara)` */
    method WalkDir(p: string, kids: seq<Node>, r: RouteConfig, now: int)
      modifies this
      ensures State() == Walk(srv, p, kids, r, now, old(State()))
      decreases kids
    {
      if p in srv.attrFails {
        errored := errored + 1;
        return;
      }
      ghost var s0 := State();
      var snap := present;
      for i := 0 to |kids|
        invariant State() == Entries(srv, p, kids[..i], snap, r, now, s0)
      {
        assert kids[..i + 1][..i] == kids[..i];
        var e := kids[i];
        var c := ChildPath(p, e.name);
        if Dots(e.name) || (e.File? && c !in snap) {
          continue;
        }
        if e.Dir? && c !in srv.probeFails {
          WalkDir(c, e.children, r, now);
        } else {
          HandleLeaf(c, e, r, now);
        }
      }
      assert kids[..|kids|] == kids;
    }

    /** The route loop of one connection, with the counters before and
        after each route giving its summary. */
    method PurgeRoutes(routes: seq<RouteConfig>, now: int) returns (reports: seq<Report>)
      modifies this
      ensures State() == Routes(srv, routes, now, old(State()))
      ensures reports == Reports(srv, routes, now, old(State()))
    {
      ghost var s0 := State();
      reports := [];
      for i := 0 to |routes|
        invariant State() == Routes(srv, routes[..i], now, s0)
        invariant reports == Reports(srv, routes[..i], now, s0)
      {
        assert routes[..i + 1][..i] == routes[..i];
        var r := routes[i];
        if r.ruta in srv.mount && srv.mount[r.ruta].Dir? && r.ruta !in srv.probeFails {
          var removedBefore, erroredBefore := removed, errored;
          WalkDir(r.ruta, srv.mount[r.ruta].children, r, now);
          reports := reports + [Verified(removed - removedBefore, errored - erroredBefore)];
        } else {
          errored := errored + 1;
          reports := reports + [Unreachable];
        }
      }
      assert routes[..|routes|] == routes;
    }

    /** `eliminar_archivos_sftp(conexion)`: returns the connection's
        (removed, errored) and the per-route summaries. */
    method PurgeConnection(paramiko: bool, fault: ConnFault, routes: seq<RouteConfig>, now: int)
      returns (removedTotal: nat, erroredTotal: nat, reports: seq<Report>)
      modifies this
      ensures var t := Connection(srv, paramiko, fault, routes, now, old(present));
        present == t.present && removedTotal == t.removed && erroredTotal == t.errored
      ensures paramiko && fault != ConnectFails ==> reports == Reports(srv, routes, now, Tally(old(present), 0, 0))
      ensures !paramiko || fault == ConnectFails ==> reports == []
    {
      removed, errored := 0, 0;
      reports := [];
      if !paramiko {
        return 0, 1, [];
      }
      if fault == ConnectFails {
        return 0, |routes|, [];
      }
      reports := PurgeRoutes(routes, now);
      removedTotal, erroredTotal := removed, errored;
      if fault == CloseFails {
        erroredTotal := erroredTotal + |routes|;
      }
    }
  }
}
