/**
  The local check of the access diagnosis, `diagnosticar_conexion_local`.
  Each configured route is looked up: a missing path, a plain file, a path
  that is neither, and a directory without write permission each count
  as a problem, and every existing path counts as verified. For a
  directory the files below it are counted as `os.walk` lists them, all of
  them for the total and, when days are configured, those that pass the
  mask and are older than the limit for the old-file count.
*/
module DiagLocal {
  import opened Common
  import opened Rule
  import opened FsTree
  import Local
  import Glob

  /** What a configured path is: a directory with its entries, a plain
      file, or something else (a device, a socket). */
  datatype Kind = Folder(children: seq<Node>) | Regular | Other

  /** The local machine as the diagnosis sees it: the configured paths that
      exist, those it may write to, and the paths whose listing or
      `getmtime` fails. */
  datatype Host = Host(
    paths: map<string, Kind>,
    writable: set<string>,
    listFails: set<string>,
    statFails: set<string>)

  /** One directory as `os.walk` yields it: its path and its files with
      their modification times. */
  datatype Listing = Listing(root: string, files: seq<(string, int)>)

  /** The files among a directory's entries. */
  function FilesOf(kids: seq<Node>): seq<(string, int)>
    decreases |kids|
  {
    if kids == [] then []
    else
      var e := kids[|kids| - 1];
      FilesOf(kids[..|kids| - 1]) + (if e.File? then [(e.name, e.mtime)] else [])
  }

  /** `os.walk(p)`, top-down: the directory itself, then each
      sub-directory in listing order. A directory that cannot be listed is
      left out with everything below it. */
  function Walk(h: Host, p: string, kids: seq<Node>): seq<Listing>
    decreases kids, 1
  {
    if p in h.listFails then [] else [Listing(p, FilesOf(kids))] + Below(h, p, kids)
  }

  function Below(h: Host, p: string, kids: seq<Node>): seq<Listing>
    decreases kids, 0
  {
    if kids == [] then []
    else
      var e := kids[|kids| - 1];
      Below(h, p, kids[..|kids| - 1]) + (if e.Dir? then Walk(h, Local.PathJoin(p, e.name), e.children) else [])
  }

  // ---------------------------------------------------------------------
  // The counting loop.

  datatype Counts = Counts(total: nat, aged: nat)

  /** One file of the walk: it is always counted, and counted as old when
      days are configured, its name passes the mask, its time can be read
      and it is older than the limit. */
  function Tick(h: Host, root: string, f: (string, int), r: RouteConfig, now: int, c: Counts): Counts {
    var c1 := c.(total := c.total + 1);
    if MaskActive(r.mascara) && !Glob.Matches(f.0, r.mascara.value) then c1
    else if r.dias <= 0 || Local.PathJoin(root, f.0) in h.statFails then c1
    else if f.1 < now - r.dias * SecondsPerDay then c1.(aged := c1.aged + 1)
    else c1
  }

  function CountIn(h: Host, root: string, fs: seq<(string, int)>, r: RouteConfig, now: int, c: Counts): Counts
    decreases |fs|
  {
    if fs == [] then c
    else Tick(h, root, fs[|fs| - 1], r, now, CountIn(h, root, fs[..|fs| - 1], r, now, c))
  }

  function CountAll(h: Host, ls: seq<Listing>, r: RouteConfig, now: int, c: Counts): Counts
    decreases |ls|
  {
    if ls == [] then c
    else
      var l := ls[|ls| - 1];
      CountIn(h, l.root, l.files, r, now, CountAll(h, ls[..|ls| - 1], r, now, c))
  }

  /** The nested `for root, dirs, files in os.walk(ruta): for file in files`
      loops with their two counters. */
  method CountFiles(h: Host, ls: seq<Listing>, r: RouteConfig, now: int) returns (total: nat, aged: nat)
    ensures Counts(total, aged) == CountAll(h, ls, r, now, Counts(0, 0))
  {
    total, aged := 0, 0;
    for i := 0 to |ls|
      invariant Counts(total, aged) == CountAll(h, ls[..i], r, now, Counts(0, 0))
    {
      assert ls[..i + 1][..i] == ls[..i];
      var l := ls[i];
      ghost var c0 := Counts(total, aged);
      for j := 0 to |l.files|
        invariant Counts(total, aged) == CountIn(h, l.root, l.files[..j], r, now, c0)
      {
        assert l.files[..j + 1][..j] == l.files[..j];
        var f := l.files[j];
        total := total + 1;
        if MaskActive(r.mascara) && !Glob.Matches(f.0, r.mascara.value) {
          continue;
        }
        if r.dias > 0 && Local.PathJoin(l.root, f.0) !in h.statFails {
          if f.1 < now - r.dias * SecondsPerDay {
            aged := aged + 1;
          }
        }
      }
      assert l.files[..|l.files|] == l.files;
    }
    assert ls[..|ls|] == ls;
  }

  // ---------------------------------------------------------------------
  // What the counters mean.

  /** Every file the walk lists. */
  function Size(ls: seq<Listing>): nat
    decreases |ls|
  {
    if ls == [] then 0 else Size(ls[..|ls| - 1]) + |ls[|ls| - 1].files|
  }

  /** A file the old-file count takes: days are configured, its time can
      be read, and the purge's own rule makes it a candidate. */
  predicate Aged(h: Host, root: string, f: (string, int), r: RouteConfig, now: int) {
    r.dias > 0 && Local.PathJoin(root, f.0) !in h.statFails && Candidate(f.0, f.1, r, now)
  }

  function AgedIn(h: Host, root: string, fs: seq<(string, int)>, r: RouteConfig, now: int): nat
    decreases |fs|
  {
    if fs == [] then 0
    else AgedIn(h, root, fs[..|fs| - 1], r, now) + (if Aged(h, root, fs[|fs| - 1], r, now) then 1 else 0)
  }

  function AgedAll(h: Host, ls: seq<Listing>, r: RouteConfig, now: int): nat
    decreases |ls|
  {
    if ls == [] then 0
    else AgedAll(h, ls[..|ls| - 1], r, now) + AgedIn(h, ls[|ls| - 1].root, ls[|ls| - 1].files, r, now)
  }

  lemma {:induction false} CountInMeaning(h: Host, root: string, fs: seq<(string, int)>, r: RouteConfig, now: int, c: Counts)
    ensures CountIn(h, root, fs, r, now, c).total == c.total + |fs|
    ensures CountIn(h, root, fs, r, now, c).aged == c.aged + AgedIn(h, root, fs, r, now)
    decreases |fs|
  {
    if fs != [] {
      CountInMeaning(h, root, fs[..|fs| - 1], r, now, c);
    }
  }

  /** The total is every listed file, whatever the mask and the days; the
      old-file count is the files the purge's rule would pick, among those
      whose time can be read, and only when days are configured. */
  lemma {:induction false} CountAllMeaning(h: Host, ls: seq<Listing>, r: RouteConfig, now: int, c: Counts)
    ensures CountAll(h, ls, r, now, c).total == c.total + Size(ls)
    ensures CountAll(h, ls, r, now, c).aged == c.aged + AgedAll(h, ls, r, now)
    decreases |ls|
  {
    if ls != [] {
      var l := ls[|ls| - 1];
      CountAllMeaning(h, ls[..|ls| - 1], r, now, c);
      CountInMeaning(h, l.root, l.files, r, now, CountAll(h, ls[..|ls| - 1], r, now, c));
    }
  }

  lemma {:induction false} AgedInBounds(h: Host, root: string, fs: seq<(string, int)>, r: RouteConfig, now: int)
    ensures AgedIn(h, root, fs, r, now) <= |fs|
    ensures r.dias <= 0 ==> AgedIn(h, root, fs, r, now) == 0
    decreases |fs|
  {
    if fs != [] {
      AgedInBounds(h, root, fs[..|fs| - 1], r, now);
    }
  }

  /** Old files are a part of all files, and there are none without days. */
  lemma {:induction false} AgedBounds(h: Host, ls: seq<Listing>, r: RouteConfig, now: int)
    ensures AgedAll(h, ls, r, now) <= Size(ls)
    ensures r.dias <= 0 ==> AgedAll(h, ls, r, now) == 0
    decreases |ls|
  {
    if ls != [] {
      AgedBounds(h, ls[..|ls| - 1], r, now);
      AgedInBounds(h, ls[|ls| - 1].root, ls[|ls| - 1].files, r, now);
    }
  }

  lemma {:induction false} AgedInMonotone(h: Host, root: string, fs: seq<(string, int)>, r: RouteConfig, longer: int, now: int)
    requires r.dias > 0 && longer >= r.dias
    ensures AgedIn(h, root, fs, r.(dias := longer), now) <= AgedIn(h, root, fs, r, now)
    decreases |fs|
  {
    if fs != [] {
      AgedInMonotone(h, root, fs[..|fs| - 1], r, longer, now);
      var f := fs[|fs| - 1];
      if Aged(h, root, f, r.(dias := longer), now) {
        MoreDaysFewerCandidates(f.0, f.1, r, longer, now);
      }
    }
  }

  /** Configuring more days never reports more old files. */
  lemma {:induction false} MoreDaysFewerAged(h: Host, ls: seq<Listing>, r: RouteConfig, longer: int, now: int)
    requires r.dias > 0 && longer >= r.dias
    ensures AgedAll(h, ls, r.(dias := longer), now) <= AgedAll(h, ls, r, now)
    decreases |ls|
  {
    if ls != [] {
      MoreDaysFewerAged(h, ls[..|ls| - 1], r, longer, now);
      AgedInMonotone(h, ls[|ls| - 1].root, ls[|ls| - 1].files, r, longer, now);
    }
  }

  // ---------------------------------------------------------------------
  // The walk lists every file when every directory can be listed.

  function TreeFiles(kids: seq<Node>): nat
    decreases kids
  {
    if kids == [] then 0
    else
      var e := kids[|kids| - 1];
      TreeFiles(kids[..|kids| - 1]) + (if e.File? then 1 else TreeFiles(e.children))
  }

  function DirFiles(kids: seq<Node>): nat
    decreases |kids|
  {
    if kids == [] then 0
    else DirFiles(kids[..|kids| - 1]) + (if kids[|kids| - 1].File? then 1 else 0)
  }

  lemma {:induction false} SizeAppend(a: seq<Listing>, b: seq<Listing>)
    ensures Size(a + b) == Size(a) + Size(b)
    decreases |b|
  {
    if b == [] {
      assert a + b == a;
    } else {
      assert (a + b)[..|a + b| - 1] == a + b[..|b| - 1];
      SizeAppend(a, b[..|b| - 1]);
    }
  }

  lemma {:induction false} FilesOfLength(kids: seq<Node>)
    ensures |FilesOf(kids)| == DirFiles(kids)
    decreases |kids|
  {
    if kids != [] {
      FilesOfLength(kids[..|kids| - 1]);
    }
  }

  /** With no listing failure, the walk lists every file of the tree. */
  lemma {:induction false} WalkListsAll(h: Host, p: string, kids: seq<Node>)
    requires h.listFails == {}
    ensures Size(Walk(h, p, kids)) == TreeFiles(kids)
    decreases kids, 1
  {
    SizeAppend([Listing(p, FilesOf(kids))], Below(h, p, kids));
    assert Size([Listing(p, FilesOf(kids))]) == |FilesOf(kids)|;
    FilesOfLength(kids);
    BelowListsAll(h, p, kids);
  }

  lemma {:induction false} BelowListsAll(h: Host, p: string, kids: seq<Node>)
    requires h.listFails == {}
    ensures DirFiles(kids) + Size(Below(h, p, kids)) == TreeFiles(kids)
    decreases kids, 0
  {
    if kids != [] {
      var e := kids[|kids| - 1];
      BelowListsAll(h, p, kids[..|kids| - 1]);
      if e.Dir? {
        SizeAppend(Below(h, p, kids[..|kids| - 1]), Walk(h, Local.PathJoin(p, e.name), e.children));
        WalkListsAll(h, Local.PathJoin(p, e.name), e.children);
      } else {
        assert Below(h, p, kids[..|kids| - 1]) + [] == Below(h, p, kids[..|kids| - 1]);
      }
    }
  }

  // ---------------------------------------------------------------------
  // The routes of one local connection.

  /** One `rutas` entry as the diagnosis reads it, with `.get`: a missing
      `ruta` is `''` and missing `dias` are 0. */
  datatype Settings = Settings(ruta: Option<string>, dias: Option<int>, mascara: Option<string>)

  function RouteOf(s: Settings): RouteConfig {
    RouteConfig(if s.ruta.Some? then s.ruta.value else "",
                if s.dias.Some? then s.dias.value else 0,
                s.mascara)
  }

  /** What the check of one route finds. */
  datatype Finding =
    | Missing
    | Directory(counts: Counts, writable: bool)
    | PlainFile
    | Special

  /** `os.path.exists`; the empty path never exists. */
  predicate Exists(h: Host, p: string) {
    p != "" && p in h.paths
  }

  function Inspect(h: Host, r: RouteConfig, now: int): Finding {
    if !Exists(h, r.ruta) then Missing
    else match h.paths[r.ruta]
      case Folder(kids) =>
        Directory(CountAll(h, Walk(h, r.ruta, kids), r, now, Counts(0, 0)), r.ruta in h.writable)
      case Regular => PlainFile
      case Other => Special
  }

  predicate Problem(f: Finding) {
    !(f.Directory? && f.writable)
  }

  function Findings(h: Host, routes: seq<Settings>, now: int): seq<Finding>
    decreases |routes|
  {
    if routes == [] then []
    else Findings(h, routes[..|routes| - 1], now) + [Inspect(h, RouteOf(routes[|routes| - 1]), now)]
  }

  function Verified(fs: seq<Finding>): nat
    decreases |fs|
  {
    if fs == [] then 0 else Verified(fs[..|fs| - 1]) + (if fs[|fs| - 1].Missing? then 0 else 1)
  }

  function Problems(fs: seq<Finding>): nat
    decreases |fs|
  {
    if fs == [] then 0 else Problems(fs[..|fs| - 1]) + (if Problem(fs[|fs| - 1]) then 1 else 0)
  }

  datatype Summary =
    | NoRoutes
    | Summary(findings: seq<Finding>, verified: nat, problems: nat)

  /** A connection without `rutas`, or with an empty list, is reported and
      left; otherwise every route is checked. */
  function Diagnose(h: Host, rutas: Option<seq<Settings>>, now: int): Summary {
    if rutas.None? || rutas.value == [] then NoRoutes
    else
      var fs := Findings(h, rutas.value, now);
      Summary(fs, Verified(fs), Problems(fs))
  }

  /** The route loop with its two counters. */
  method DiagnoseLocal(h: Host, rutas: Option<seq<Settings>>, now: int) returns (s: Summary)
    ensures s == Diagnose(h, rutas, now)
  {
    if rutas.None? || |rutas.value| == 0 {
      return NoRoutes;
    }
    var routes := rutas.value;
    var findings: seq<Finding> := [];
    var verified, problems := 0, 0;
    for i := 0 to |routes|
      invariant findings == Findings(h, routes[..i], now)
      invariant verified == Verified(findings) && problems == Problems(findings)
    {
      assert routes[..i + 1][..i] == routes[..i];
      var r := RouteOf(routes[i]);
      var f := CheckRoute(h, r, now);
      if !f.Missing? {
        verified := verified + 1;
      }
      if Problem(f) {
        problems := problems + 1;
      }
      CountersSnoc(findings, f);
      findings := findings + [f];
    }
    assert routes[..|routes|] == routes;
    return Summary(findings, verified, problems);
  }

  /** The checks of one route: existence, kind, the file counts of a
      directory and its write permission. */
  method CheckRoute(h: Host, r: RouteConfig, now: int) returns (f: Finding)
    ensures f == Inspect(h, r, now)
  {
    if !Exists(h, r.ruta) {
      return Missing;
    }
    var kind := h.paths[r.ruta];
    if kind.Folder? {
      var total, aged := CountFiles(h, Walk(h, r.ruta, kind.children), r, now);
      f := Directory(Counts(total, aged), r.ruta in h.writable);
    } else if kind.Regular? {
      f := PlainFile;
    } else {
      f := Special;
    }
  }

  // ---------------------------------------------------------------------
  // What the summary means.

  lemma CountersSnoc(fs: seq<Finding>, f: Finding)
    ensures Verified(fs + [f]) == Verified(fs) + (if f.Missing? then 0 else 1)
    ensures Problems(fs + [f]) == Problems(fs) + (if Problem(f) then 1 else 0)
  {
    assert (fs + [f])[..|fs|] == fs;
  }

  /** The i-th finding is the check of the i-th route. */
  lemma {:induction false} FindingsAt(h: Host, routes: seq<Settings>, now: int, i: int)
    requires 0 <= i < |routes|
    ensures |Findings(h, routes, now)| == |routes|
    ensures Findings(h, routes, now)[i] == Inspect(h, RouteOf(routes[i]), now)
    decreases |routes|
  {
    FindingsLength(h, routes, now);
    if i < |routes| - 1 {
      FindingsAt(h, routes[..|routes| - 1], now, i);
    }
  }

  lemma {:induction false} FindingsLength(h: Host, routes: seq<Settings>, now: int)
    ensures |Findings(h, routes, now)| == |routes|
    decreases |routes|
  {
    if routes != [] {
      FindingsLength(h, routes[..|routes| - 1], now);
    }
  }

  /** Every route that does not exist is a problem, so problems and
      verified routes together cover every route. */
  lemma {:induction false} CountersCover(fs: seq<Finding>)
    ensures Verified(fs) <= |fs| && Problems(fs) <= |fs|
    ensures Verified(fs) + Problems(fs) >= |fs|
    decreases |fs|
  {
    if fs != [] {
      CountersCover(fs[..|fs| - 1]);
    }
  }

  lemma {:induction false} NoProblemsIff(fs: seq<Finding>)
    ensures Problems(fs) == 0 <==> forall i :: 0 <= i < |fs| ==> !Problem(fs[i])
    decreases |fs|
  {
    if fs != [] {
      NoProblemsIff(fs[..|fs| - 1]);
      assert forall i :: 0 <= i < |fs| - 1 ==> fs[..|fs| - 1][i] == fs[i];
    }
  }

  lemma {:induction false} AllVerifiedIff(fs: seq<Finding>)
    ensures Verified(fs) == |fs| <==> forall i :: 0 <= i < |fs| ==> !fs[i].Missing?
    decreases |fs|
  {
    if fs != [] {
      AllVerifiedIff(fs[..|fs| - 1]);
      CountersCover(fs[..|fs| - 1]);
      assert forall i :: 0 <= i < |fs| - 1 ==> fs[..|fs| - 1][i] == fs[i];
    }
  }

  /** "Every route is ready for the purge" is reported exactly when every
      route is an existing, writable directory. */
  lemma ReadyIff(h: Host, routes: seq<Settings>, now: int)
    requires routes != []
    ensures Diagnose(h, Some(routes), now).problems == 0 <==>
      forall i :: 0 <= i < |routes| ==>
        var p := RouteOf(routes[i]).ruta;
        Exists(h, p) && h.paths[p].Folder? && p in h.writable
  {
    var fs := Findings(h, routes, now);
    NoProblemsIff(fs);
    FindingsLength(h, routes, now);
    forall i | 0 <= i < |routes|
      ensures !Problem(fs[i]) <==>
        var p := RouteOf(routes[i]).ruta;
        Exists(h, p) && h.paths[p].Folder? && p in h.writable
    {
      FindingsAt(h, routes, now, i);
      InspectMeaning(h, RouteOf(routes[i]), now);
    }
  }

  /** A route is verified exactly when its path exists. */
  lemma AllExistIff(h: Host, routes: seq<Settings>, now: int)
    requires routes != []
    ensures Diagnose(h, Some(routes), now).verified == |routes| <==>
      forall i :: 0 <= i < |routes| ==> Exists(h, RouteOf(routes[i]).ruta)
  {
    var fs := Findings(h, routes, now);
    AllVerifiedIff(fs);
    FindingsLength(h, routes, now);
    forall i | 0 <= i < |routes|
      ensures !fs[i].Missing? <==> Exists(h, RouteOf(routes[i]).ruta)
    {
      FindingsAt(h, routes, now, i);
      InspectMeaning(h, RouteOf(routes[i]), now);
    }
  }

  /** A route is missing exactly when its path does not exist, and is no
      problem exactly when it is a writable directory. */
  lemma InspectMeaning(h: Host, r: RouteConfig, now: int)
    ensures Inspect(h, r, now).Missing? <==> !Exists(h, r.ruta)
    ensures !Problem(Inspect(h, r, now)) <==> Exists(h, r.ruta) && h.paths[r.ruta].Folder? && r.ruta in h.writable
  {
  }
}
