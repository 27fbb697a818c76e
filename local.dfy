/**
  The local purge, `eliminar_archivos_locales`: an `os.walk` over the route
  that visits a directory's files first and then descends into its
  sub-directories in listing order. For every file whose name passes the
  mask it counts one processed file, reads the modification time and
  removes the file when it is older than the limit. A directory that cannot
  be listed is skipped without an error, as `os.walk` does by default.
*/
module Local {
  import opened Common
  import opened Rule
  import opened FsTree
  import Ledger
  import Glob

  /** The local file system: the trees reachable from each path, and the
      paths whose listing, `getmtime` or `os.remove` fails. */
  datatype Disk = Disk(
    mount: map<string, Node>,
    listFails: set<string>,
    statFails: set<string>,
    deleteFails: set<string>)

  /** Files still present, and the counters of one call. */
  datatype Tally = Tally(present: set<string>, processed: nat, removed: nat, errored: nat)

  predicate NoFaults(d: Disk) {
    d.listFails == {} && d.statFails == {} && d.deleteFails == {}
  }

  /** `os.path.join(a, b)` (POSIX). */
  function PathJoin(a: string, b: string): string {
    if StartsWith(b, "/") then b
    else if a == [] || a[|a| - 1] == '/' then a + b
    else a + "/" + b
  }

  // ---------------------------------------------------------------------
  // Specification of the walk.

  /** One file name of a listing. */
  function FileStep(d: Disk, path: string, e: Node, r: RouteConfig, now: int, s: Tally): Tally
    requires e.File?
  {
    if !Admits(e.name, r.mascara) then s
    else
      var s1 := s.(processed := s.processed + 1);
      if path !in s.present || path in d.statFails then s1.(errored := s1.errored + 1)
      else if !OldEnough(e.mtime, now, r.dias) then s1
      else if path in d.deleteFails then s1.(errored := s1.errored + 1)
      else s1.(present := s.present - {path}, removed := s1.removed + 1)
  }

  /** The files of one listing, in order; `snap` is the set of files that
      existed when the directory was listed. */
  function Files(d: Disk, p: string, kids: seq<Node>, snap: set<string>, r: RouteConfig, now: int, s: Tally): Tally
    decreases |kids|
  {
    if kids == [] then s
    else
      var s1 := Files(d, p, kids[..|kids| - 1], snap, r, now, s);
      var e := kids[|kids| - 1];
      if e.File? && PathJoin(p, e.name) in snap then FileStep(d, PathJoin(p, e.name), e, r, now, s1) else s1
  }

  /** The walk from directory `p` whose entries are `kids`. */
  function Walk(d: Disk, p: string, kids: seq<Node>, r: RouteConfig, now: int, s: Tally): Tally
    decreases kids, 1
  {
    if p in d.listFails then s
    else Subdirs(d, p, kids, r, now, Files(d, p, kids, s.present, r, now, s))
  }

  function Subdirs(d: Disk, p: string, kids: seq<Node>, r: RouteConfig, now: int, s: Tally): Tally
    decreases kids, 0
  {
    if kids == [] then s
    else
      var s1 := Subdirs(d, p, kids[..|kids| - 1], r, now, s);
      var e := kids[|kids| - 1];
      if e.Dir? then Walk(d, PathJoin(p, e.name), e.children, r, now, s1) else s1
  }

  /** One call of the purge, starting with zeroed counters. A route that is
      missing or is a plain file yields nothing. */
  function Purge(d: Disk, r: RouteConfig, now: int, present: set<string>): Tally {
    var s := Tally(present, 0, 0, 0);
    if r.ruta in d.mount && d.mount[r.ruta].Dir? then Walk(d, r.ruta, d.mount[r.ruta].children, r, now, s)
    else s
  }

  // ---------------------------------------------------------------------
  // Independent description of what may go: the candidate files below a
  // directory, whether or not they can be listed, read or removed.

  function EligibleFiles(p: string, kids: seq<Node>, r: RouteConfig, now: int): set<string>
    decreases |kids|
  {
    if kids == [] then {}
    else
      var e := kids[|kids| - 1];
      EligibleFiles(p, kids[..|kids| - 1], r, now)
      + (if e.File? && Candidate(e.name, e.mtime, r, now) then {PathJoin(p, e.name)} else {})
  }

  function EligibleDirs(p: string, kids: seq<Node>, r: RouteConfig, now: int): set<string>
    decreases kids, 0
  {
    if kids == [] then {}
    else
      var e := kids[|kids| - 1];
      EligibleDirs(p, kids[..|kids| - 1], r, now)
      + (if e.Dir? then Eligible(PathJoin(p, e.name), e.children, r, now) else {})
  }

  function Eligible(p: string, kids: seq<Node>, r: RouteConfig, now: int): set<string>
    decreases kids, 1
  {
    EligibleFiles(p, kids, r, now) + EligibleDirs(p, kids, r, now)
  }

  function EligibleRoute(d: Disk, r: RouteConfig, now: int): set<string> {
    if r.ruta in d.mount && d.mount[r.ruta].Dir? then Eligible(r.ruta, d.mount[r.ruta].children, r, now) else {}
  }

  /** From `s` to `t` only files of `allowed` disappeared, the removed
      counter grew by their number, and each processed file added at most
      one to either counter. */
  predicate Accounted(s: Tally, t: Tally, allowed: set<string>) {
    && Ledger.Shrinks(s.present, t.present, t.removed - s.removed, allowed)
    && s.errored <= t.errored
    && s.processed <= t.processed
    && (t.removed - s.removed) + (t.errored - s.errored) <= t.processed - s.processed
  }

  lemma AccountedChain(s: Tally, t: Tally, u: Tally, allowed: set<string>)
    requires Accounted(s, t, allowed) && Accounted(t, u, allowed)
    ensures Accounted(s, u, allowed)
  {
    Ledger.Chain(s.present, t.present, u.present, t.removed - s.removed, u.removed - t.removed, allowed);
  }

  lemma AccountedWiden(s: Tally, t: Tally, small: set<string>, big: set<string>)
    requires Accounted(s, t, small) && small <= big
    ensures Accounted(s, t, big)
  {
  }

  lemma AccountedRefl(s: Tally, allowed: set<string>)
    ensures Accounted(s, s, allowed)
  {
    Ledger.Unchanged(s.present, allowed);
  }

  // ---------------------------------------------------------------------
  // Soundness: only candidate files disappear, and the counters agree.

  lemma FileStepSound(d: Disk, path: string, e: Node, r: RouteConfig, now: int, s: Tally, allowed: set<string>)
    requires e.File?
    requires Candidate(e.name, e.mtime, r, now) ==> path in allowed
    ensures Accounted(s, FileStep(d, path, e, r, now, s), allowed)
  {
    var t := FileStep(d, path, e, r, now, s);
    if t.present == s.present {
      Ledger.Unchanged(s.present, allowed);
    } else {
      Ledger.RemoveOne(s.present, path, allowed);
    }
  }

  lemma {:induction false} FilesSound(d: Disk, p: string, kids: seq<Node>, snap: set<string>, r: RouteConfig, now: int, s: Tally)
    ensures Accounted(s, Files(d, p, kids, snap, r, now, s), EligibleFiles(p, kids, r, now))
    decreases |kids|
  {
    if kids == [] {
      AccountedRefl(s, {});
    } else {
      var init := kids[..|kids| - 1];
      var e := kids[|kids| - 1];
      var E := EligibleFiles(p, kids, r, now);
      var s1 := Files(d, p, init, snap, r, now, s);
      FilesSound(d, p, init, snap, r, now, s);
      AccountedWiden(s, s1, EligibleFiles(p, init, r, now), E);
      if e.File? && PathJoin(p, e.name) in snap {
        FileStepSound(d, PathJoin(p, e.name), e, r, now, s1, E);
        AccountedChain(s, s1, Files(d, p, kids, snap, r, now, s), E);
      }
    }
  }

  lemma {:induction false} WalkSound(d: Disk, p: string, kids: seq<Node>, r: RouteConfig, now: int, s: Tally)
    ensures Accounted(s, Walk(d, p, kids, r, now, s), Eligible(p, kids, r, now))
    decreases kids, 1
  {
    var E := Eligible(p, kids, r, now);
    if p in d.listFails {
      AccountedRefl(s, E);
    } else {
      var s1 := Files(d, p, kids, s.present, r, now, s);
      FilesSound(d, p, kids, s.present, r, now, s);
      AccountedWiden(s, s1, EligibleFiles(p, kids, r, now), E);
      SubdirsSound(d, p, kids, r, now, s1);
      AccountedWiden(s1, Subdirs(d, p, kids, r, now, s1), EligibleDirs(p, kids, r, now), E);
      AccountedChain(s, s1, Subdirs(d, p, kids, r, now, s1), E);
    }
  }

  lemma {:induction false} SubdirsSound(d: Disk, p: string, kids: seq<Node>, r: RouteConfig, now: int, s: Tally)
    ensures Accounted(s, Subdirs(d, p, kids, r, now, s), EligibleDirs(p, kids, r, now))
    decreases kids, 0
  {
    if kids == [] {
      AccountedRefl(s, {});
    } else {
      var init := kids[..|kids| - 1];
      var e := kids[|kids| - 1];
      var E := EligibleDirs(p, kids, r, now);
      var s1 := Subdirs(d, p, init, r, now, s);
      SubdirsSound(d, p, init, r, now, s);
      AccountedWiden(s, s1, EligibleDirs(p, init, r, now), E);
      if e.Dir? {
        var c := PathJoin(p, e.name);
        WalkSound(d, c, e.children, r, now, s1);
        AccountedWiden(s1, Walk(d, c, e.children, r, now, s1), Eligible(c, e.children, r, now), E);
        AccountedChain(s, s1, Walk(d, c, e.children, r, now, s1), E);
      }
    }
  }

  /** Only candidate files under the route disappear (directories never do),
      the removed count is exactly the number of files that disappeared,
      and each processed file counts at most once. */
  lemma PurgeSound(d: Disk, r: RouteConfig, now: int, present: set<string>)
    ensures var t := Purge(d, r, now, present);
      && t.present <= present
      && present - t.present <= EligibleRoute(d, r, now)
      && t.removed == |present - t.present|
      && t.removed + t.errored <= t.processed
  {
    var s := Tally(present, 0, 0, 0);
    if r.ruta in d.mount && d.mount[r.ruta].Dir? {
      WalkSound(d, r.ruta, d.mount[r.ruta].children, r, now, s);
    } else {
      AccountedRefl(s, {});
    }
  }

  // ---------------------------------------------------------------------
  // Completeness: with nothing failing, every candidate file goes.

  lemma {:induction false} FilesComplete(d: Disk, p: string, kids: seq<Node>, snap: set<string>, r: RouteConfig, now: int, s: Tally)
    requires NoFaults(d) && s.present <= snap
    ensures EligibleFiles(p, kids, r, now) !! Files(d, p, kids, snap, r, now, s).present
    decreases |kids|
  {
    if kids != [] {
      var init := kids[..|kids| - 1];
      var e := kids[|kids| - 1];
      var s1 := Files(d, p, init, snap, r, now, s);
      FilesComplete(d, p, init, snap, r, now, s);
      FilesSound(d, p, init, snap, r, now, s);
      if e.File? && PathJoin(p, e.name) in snap {
        FileStepSound(d, PathJoin(p, e.name), e, r, now, s1, EligibleFiles(p, kids, r, now));
      }
    }
  }

  lemma {:induction false} WalkComplete(d: Disk, p: string, kids: seq<Node>, r: RouteConfig, now: int, s: Tally)
    requires NoFaults(d)
    ensures Eligible(p, kids, r, now) !! Walk(d, p, kids, r, now, s).present
    decreases kids, 1
  {
    var s1 := Files(d, p, kids, s.present, r, now, s);
    FilesComplete(d, p, kids, s.present, r, now, s);
    SubdirsComplete(d, p, kids, r, now, s1);
    SubdirsSound(d, p, kids, r, now, s1);
  }

  lemma {:induction false} SubdirsComplete(d: Disk, p: string, kids: seq<Node>, r: RouteConfig, now: int, s: Tally)
    requires NoFaults(d)
    ensures EligibleDirs(p, kids, r, now) !! Subdirs(d, p, kids, r, now, s).present
    decreases kids, 0
  {
    if kids != [] {
      var init := kids[..|kids| - 1];
      var e := kids[|kids| - 1];
      var s1 := Subdirs(d, p, init, r, now, s);
      SubdirsComplete(d, p, init, r, now, s);
      if e.Dir? {
        var c := PathJoin(p, e.name);
        WalkComplete(d, c, e.children, r, now, s1);
        WalkSound(d, c, e.children, r, now, s1);
      }
    }
  }

  /** Without failures the purge removes exactly the candidate files that
      were present. */
  lemma PurgeComplete(d: Disk, r: RouteConfig, now: int, present: set<string>)
    requires NoFaults(d)
    ensures Purge(d, r, now, present).present == present - EligibleRoute(d, r, now)
  {
    PurgeSound(d, r, now, present);
    if r.ruta in d.mount && d.mount[r.ruta].Dir? {
      WalkComplete(d, r.ruta, d.mount[r.ruta].children, r, now, Tally(present, 0, 0, 0));
    }
  }

  // ---------------------------------------------------------------------
  // The purge as the program runs it.

  class LocalPurger {
    const disk: Disk
    var present: set<string>
    var processed: nat
    var removed: nat
    var errored: nat

    function State(): Tally
      reads this
    {
      Tally(present, processed, removed, errored)
    }

    constructor (disk: Disk, present: set<string>)
      ensures this.disk == disk && State() == Tally(present, 0, 0, 0)
    {
      this.disk := disk;
      this.present := present;
      processed, removed, errored := 0, 0, 0;
    }

    method ProcessFile(path: string, e: Node, r: RouteConfig, now: int)
      requires e.File?
      modifies this
      ensures State() == FileStep(disk, path, e, r, now, old(State()))
    {
      if MaskActive(r.mascara) && !Glob.Matches(e.name, r.mascara.value) {
        return;
      }
      processed := processed + 1;
      if path !in present || path in disk.statFails {
        errored := errored + 1;
        return;
      }
      if e.mtime < Limit(now, r.dias) {
        if path in disk.deleteFails {
          errored := errored + 1;
        } else {
          present := present - {path};
          removed := removed + 1;
        }
      }
    }

    method WalkDir(p: string, kids: seq<Node>, r: RouteConfig, now: int)
      modifies this
      ensures State() == Walk(disk, p, kids, r, now, old(State()))
      decreases kids
    {
      if p in disk.listFails {
        return;
      }
      ghost var s0 := State();
      var snap := present;
      for i := 0 to |kids|
        invariant State() == Files(disk, p, kids[..i], snap, r, now, s0)
      {
        assert kids[..i + 1][..i] == kids[..i];
        var e := kids[i];
        if e.File? && PathJoin(p, e.name) in snap {
          ProcessFile(PathJoin(p, e.name), e, r, now);
        }
      }
      assert kids[..|kids|] == kids;
      ghost var s1 := State();
      for i := 0 to |kids|
        invariant State() == Subdirs(disk, p, kids[..i], r, now, s1)
      {
        assert kids[..i + 1][..i] == kids[..i];
        var e := kids[i];
        if e.Dir? {
          WalkDir(PathJoin(p, e.name), e.children, r, now);
        }
      }
    }

    /** `eliminar_archivos_locales(ruta, dias, mascara)`: zeroes the
        counters, walks the route and returns (removed, errored). */
    method PurgeRoute(r: RouteConfig, now: int) returns (removedCount: nat, erroredCount: nat)
      modifies this
      ensures State() == Purge(disk, r, now, old(present))
      ensures removedCount == removed && erroredCount == errored
    {
      processed, removed, errored := 0, 0, 0;
      if r.ruta in disk.mount && disk.mount[r.ruta].Dir? {
        WalkDir(r.ruta, disk.mount[r.ruta].children, r, now);
      }
      removedCount, erroredCount := removed, errored;
    }
  }
}
