/**
  `obtener_rutas_para_diagnostico`: the paths a diagnosis looks at for a
  connection. Two variants: the local/remote diagnosis adds every
  cumulative prefix of a route in absolute form (`/var`, `/var/log`), the
  SFTP diagnosis in relative form (`var`, `var/log`). Both start from fixed
  base paths, add the configured routes and the user's home, and return
  the set sorted.
*/
module DiagPaths {
  import opened Common
  import TextOrder

  /** What the expansion reads of a connection: the `ruta` of each entry
      of `rutas` (`None` when the entry has no `ruta`), if `rutas` is
      there, and `usuario`, if it is there. */
  datatype Target = Target(rutas: Option<seq<Option<string>>>, usuario: Option<string>)

  /** The absolute-prefix expansion as written; the same with its guard
      corrected; the relative-prefix expansion of the SFTP diagnosis. */
  datatype Variant = AsWritten | Corrected | Relative

  const AbsoluteBase: set<string> := {"/", "/home", "/tmp", "/var", "/backup", "/opt", "/usr/local"}
  const RelativeBase: set<string> := {"/", "/home", "/tmp", "/var", "/backup"}

  function Base(v: Variant): set<string> {
    if v.Relative? then RelativeBase else AbsoluteBase
  }

  /** `posixpath.join(a, b)` */
  function PosixJoin(a: string, b: string): string {
    if StartsWith(b, "/") || a == [] then b
    else if a[|a| - 1] == '/' then a + b
    else a + "/" + b
  }

  /** `c if c.startswith('/') else '/' + c` */
  function Rooted(c: string): string {
    if StartsWith(c, "/") then c else "/" + c
  }

  /** The path a variant adds for the cumulative prefix `c`. */
  function Mark(v: Variant, c: string): string {
    if v.Relative? then c else Rooted(c)
  }

  /** One component of the route: it extends the cumulative prefix, which
      is added unless the guard finds it present. As written, the
      absolute variant tests the prefix itself but adds it with a leading
      '/'; the corrected variant adds it unconditionally. */
  function Step(v: Variant, paths: set<string>, camino: string, parte: string): (set<string>, string) {
    if parte == "" then (paths, camino)
    else
      var c := PosixJoin(camino, parte);
      (if c != "" && (v.Corrected? || c !in paths) then paths + {Mark(v, c)} else paths, c)
  }

  /** The inner loop over `ruta.split('/')`. */
  function Components(v: Variant, paths: set<string>, camino: string, partes: seq<string>): (set<string>, string)
    decreases |partes|
  {
    if partes == [] then (paths, camino)
    else
      var (p, c) := Components(v, paths, camino, partes[..|partes| - 1]);
      Step(v, p, c, partes[|partes| - 1])
  }

  /** One entry of `rutas`: the absolute variants read `ruta_config.get('ruta', '')`
      and skip an empty route; the SFTP variant reads `ruta_config['ruta']`,
      which raises for an entry without one (`None`), and keeps every route. */
  function AddRoute(v: Variant, paths: set<string>, ruta: Option<string>): Option<set<string>> {
    if v.Relative? then
      if ruta.None? then None
      else Some(Components(v, paths + {ruta.value}, "", SplitOn(ruta.value, '/')).0)
    else
      var r := if ruta.Some? then ruta.value else "";
      if r == "" then Some(paths)
      else Some(Components(v, paths + {r}, "", SplitOn(r, '/')).0)
  }

  function AddRoutes(v: Variant, paths: set<string>, rutas: seq<Option<string>>): Option<set<string>>
    decreases |rutas|
  {
    if rutas == [] then Some(paths)
    else
      match AddRoutes(v, paths, rutas[..|rutas| - 1])
      case None => None
      case Some(p) => AddRoute(v, p, rutas[|rutas| - 1])
  }

  /** The home directories added when the connection has a `usuario`. */
  function Homes(v: Variant, usuario: Option<string>): set<string> {
    if usuario.None? then {}
    else if v.Relative? then {"/home/" + usuario.value}
    else {"/home/" + usuario.value, "/Users/" + usuario.value}
  }

  /** The set of paths before sorting; `None` when the expansion raises. */
  function Paths(v: Variant, t: Target): Option<set<string>> {
    var s := if t.rutas.None? then Some(Base(v)) else AddRoutes(v, Base(v), t.rutas.value);
    if s.None? then None else Some(s.value + Homes(v, t.usuario))
  }

  // ---------------------------------------------------------------------
  // Paths only accumulate.

  lemma {:induction false} ComponentsGrow(v: Variant, paths: set<string>, camino: string, partes: seq<string>)
    ensures paths <= Components(v, paths, camino, partes).0
    decreases |partes|
  {
    if partes != [] {
      ComponentsGrow(v, paths, camino, partes[..|partes| - 1]);
    }
  }

  lemma AddRouteGrow(v: Variant, paths: set<string>, ruta: Option<string>)
    requires AddRoute(v, paths, ruta).Some?
    ensures paths <= AddRoute(v, paths, ruta).value
  {
    var r := if ruta.Some? then ruta.value else "";
    if r != "" || v.Relative? {
      ComponentsGrow(v, paths + {r}, "", SplitOn(r, '/'));
    }
  }

  /** The routes after the first `j` only add paths, and a route that
      raises makes the whole expansion raise. */
  lemma {:induction false} AddRoutesPrefix(v: Variant, paths: set<string>, rutas: seq<Option<string>>, j: int)
    requires 0 <= j <= |rutas|
    ensures AddRoutes(v, paths, rutas).Some? ==>
      AddRoutes(v, paths, rutas[..j]).Some? && AddRoutes(v, paths, rutas[..j]).value <= AddRoutes(v, paths, rutas).value
    decreases |rutas|
  {
    if j == |rutas| {
      assert rutas[..j] == rutas;
    } else {
      var init := rutas[..|rutas| - 1];
      assert init[..j] == rutas[..j];
      AddRoutesPrefix(v, paths, init, j);
      if AddRoutes(v, paths, rutas).Some? {
        AddRouteGrow(v, AddRoutes(v, paths, init).value, rutas[|rutas| - 1]);
      }
    }
  }

  lemma {:induction false} AddRoutesGrow(v: Variant, paths: set<string>, rutas: seq<Option<string>>)
    requires AddRoutes(v, paths, rutas).Some?
    ensures paths <= AddRoutes(v, paths, rutas).value
  {
    AddRoutesPrefix(v, paths, rutas, 0);
    assert rutas[..0] == [];
  }

  /** The SFTP expansion raises exactly when an entry has no `ruta`; the
      absolute ones never raise. */
  lemma {:induction false} AddRoutesRaises(v: Variant, paths: set<string>, rutas: seq<Option<string>>)
    ensures AddRoutes(v, paths, rutas).None? <==> v.Relative? && exists i :: 0 <= i < |rutas| && rutas[i].None?
    decreases |rutas|
  {
    if rutas != [] {
      var init := rutas[..|rutas| - 1];
      AddRoutesRaises(v, paths, init);
      if exists i :: 0 <= i < |init| && init[i].None? {
        var i :| 0 <= i < |init| && init[i].None?;
        assert rutas[i] == init[i];
      }
      if v.Relative? && exists i :: 0 <= i < |rutas| && rutas[i].None? {
        var i :| 0 <= i < |rutas| && rutas[i].None?;
        if i < |init| {
          assert init[i] == rutas[i];
        }
      }
    }
  }

  // ---------------------------------------------------------------------
  // Cumulative prefixes.

  /** The non-empty pieces, in order. */
  function NonEmpty(partes: seq<string>): (ws: seq<string>)
    ensures |ws| <= |partes|
    decreases |partes|
  {
    if partes == [] then []
    else NonEmpty(partes[..|partes| - 1]) + (if partes[|partes| - 1] == "" then [] else [partes[|partes| - 1]])
  }

  /** The components of a route: the non-empty pieces of `ruta.split('/')`. */
  function Parts(ruta: string): seq<string> {
    NonEmpty(SplitOn(ruta, '/'))
  }

  predicate Piece(w: string) {
    w != "" && '/' !in w
  }

  lemma {:induction false} NonEmptyPieces(partes: seq<string>)
    requires forall k :: 0 <= k < |partes| ==> '/' !in partes[k]
    ensures forall k :: 0 <= k < |NonEmpty(partes)| ==> Piece(NonEmpty(partes)[k])
    decreases |partes|
  {
    if partes != [] {
      NonEmptyPieces(partes[..|partes| - 1]);
    }
  }

  lemma {:induction false} JoinSnoc(ws: seq<string>, w: string)
    ensures JoinWith(ws + [w], "/") == if ws == [] then w else JoinWith(ws, "/") + "/" + w
    decreases |ws|
  {
    if |ws| > 1 {
      assert (ws + [w])[1..] == ws[1..] + [w];
      JoinSnoc(ws[1..], w);
    } else if |ws| == 1 {
      assert (ws + [w])[1..] == [w];
    }
  }

  /** A prefix built from pieces neither starts nor ends with '/'. */
  lemma NoSlashEnds(ws: seq<string>)
    requires ws != [] && forall k :: 0 <= k < |ws| ==> Piece(ws[k])
    ensures var j := JoinWith(ws, "/"); j != "" && j[0] != '/' && j[|j| - 1] != '/'
  {
    JoinHead(ws, "/");
    var last := ws[|ws| - 1];
    assert ws == ws[..|ws| - 1] + [last];
    JoinSnoc(ws[..|ws| - 1], last);
    assert last[|last| - 1] in last;
  }

  /** Joining a piece onto a prefix of pieces extends the prefix by that
      piece. */
  lemma JoinPiece(ws: seq<string>, w: string)
    requires forall k :: 0 <= k < |ws| ==> Piece(ws[k])
    requires Piece(w)
    ensures PosixJoin(JoinWith(ws, "/"), w) == JoinWith(ws + [w], "/")
  {
    JoinSnoc(ws, w);
    assert w[0] in w;
    if ws != [] {
      NoSlashEnds(ws);
    }
  }

  /** What every variant but the written one promises: after the pieces
      seen so far, the cumulative prefix is their join, and each of their
      cumulative prefixes is in the set, marked as the variant marks it. */
  predicate Covered(v: Variant, s: set<string>, ws: seq<string>) {
    forall k :: 1 <= k <= |ws| ==> Mark(v, JoinWith(ws[..k], "/")) in s
  }

  lemma {:induction false} ComponentsCover(v: Variant, paths: set<string>, partes: seq<string>)
    requires !v.AsWritten?
    requires forall k :: 0 <= k < |partes| ==> '/' !in partes[k]
    ensures var (s, c) := Components(v, paths, "", partes);
      c == JoinWith(NonEmpty(partes), "/") && Covered(v, s, NonEmpty(partes))
    decreases |partes|
  {
    if partes != [] {
      var init := partes[..|partes| - 1];
      var p := partes[|partes| - 1];
      ComponentsCover(v, paths, init);
      var (s0, c0) := Components(v, paths, "", init);
      var ws := NonEmpty(init);
      NonEmptyPieces(init);
      if p != "" {
        JoinPiece(ws, p);
        var c := PosixJoin(c0, p);
        var s := Components(v, paths, "", partes).0;
        assert NonEmpty(partes) == ws + [p];
        assert c == JoinWith(ws + [p], "/");
        assert Mark(v, c) in s;
        forall k | 1 <= k <= |ws| + 1 ensures Mark(v, JoinWith((ws + [p])[..k], "/")) in s {
          if k <= |ws| {
            assert (ws + [p])[..k] == ws[..k];
          } else {
            assert (ws + [p])[..k] == ws + [p];
          }
        }
      } else {
        assert NonEmpty(partes) == ws;
      }
    }
  }

  /** Every configured route ends up in the expansion verbatim, whatever
      the guard does with its prefixes: the SFTP variant keeps every route,
      the absolute ones every non-empty route. */
  lemma RouteKept(v: Variant, t: Target, i: int)
    requires t.rutas.Some? && 0 <= i < |t.rutas.value|
    requires t.rutas.value[i].Some? && (v.Relative? || t.rutas.value[i].value != "")
    requires Paths(v, t).Some?
    ensures t.rutas.value[i].value in Paths(v, t).value
  {
    var rutas := t.rutas.value;
    var r := rutas[i].value;
    AddRoutesPrefix(v, Base(v), rutas, i + 1);
    assert rutas[..i + 1][..i] == rutas[..i];
    var before := AddRoutes(v, Base(v), rutas[..i]).value;
    ComponentsGrow(v, before + {r}, "", SplitOn(r, '/'));
  }

  /** Every route of a connection ends up in the relative expansion, and
      every non-empty one in the corrected expansion, together with all its
      cumulative prefixes, in relative form or absolute form respectively. */
  lemma RouteCovered(v: Variant, t: Target, i: int)
    requires !v.AsWritten? && t.rutas.Some? && 0 <= i < |t.rutas.value|
    requires t.rutas.value[i].Some? && (v.Relative? || t.rutas.value[i].value != "")
    requires Paths(v, t).Some?
    ensures var r := t.rutas.value[i].value;
      r in Paths(v, t).value && Covered(v, Paths(v, t).value, Parts(r))
  {
    var rutas := t.rutas.value;
    var r := rutas[i].value;
    RouteKept(v, t, i);
    AddRoutesPrefix(v, Base(v), rutas, i + 1);
    assert rutas[..i + 1][..i] == rutas[..i];
    var before := AddRoutes(v, Base(v), rutas[..i]).value;
    ComponentsCover(v, before + {r}, SplitOn(r, '/'));
  }

  /** The base paths and the user's homes are always there. */
  lemma BaseAndHomes(v: Variant, t: Target)
    requires Paths(v, t).Some?
    ensures Base(v) + Homes(v, t.usuario) <= Paths(v, t).value
  {
    if t.rutas.Some? {
      AddRoutesGrow(v, Base(v), t.rutas.value);
    }
  }

  // ---------------------------------------------------------------------
  // The guard as written.

  /** For a relative route the written guard finds the route itself where
      it looks for the prefix: `data` yields no `/data`. */
  lemma GuardMissesRelativeRoute()
    ensures var t := Target(Some([Some("data")]), None);
      && Paths(AsWritten, t).Some? && "/data" !in Paths(AsWritten, t).value
      && Paths(Corrected, t).Some? && "/data" in Paths(Corrected, t).value
  {
    var t := Target(Some([Some("data")]), None);
    assert SplitOn("data", '/') == ["data"] by {
      assert SplitOn("", '/') == [""];
      assert "a"[1..] == "" && ['a'] + "" == "a";
      assert SplitOn("a", '/') == ["a"];
      assert "ta"[1..] == "a" && ['t'] + "a" == "ta";
      assert SplitOn("ta", '/') == ["ta"];
      assert "ata"[1..] == "ta" && ['a'] + "ta" == "ata";
      assert SplitOn("ata", '/') == ["ata"];
      assert "data"[1..] == "ata" && ['d'] + "ata" == "data";
    }
    assert [Some("data")][..0] == [];
    assert ["data"][..0] == [];
    assert PosixJoin("", "data") == "data";
    assert Rooted("data") == "/data" by {
      assert !StartsWith("data", "/");
      assert "/" + "data" == "/data";
    }
  }

  predicate AllRooted(s: set<string>) {
    forall x :: x in s ==> StartsWith(x, "/")
  }

  /** While every path in the set is absolute, the written guard never
      finds the relative prefix, so it adds what the corrected one adds. */
  lemma {:induction false} ComponentsAgree(paths: set<string>, camino: string, partes: seq<string>)
    requires AllRooted(paths) && !StartsWith(camino, "/")
    requires forall k :: 0 <= k < |partes| ==> '/' !in partes[k]
    ensures Components(AsWritten, paths, camino, partes) == Components(Corrected, paths, camino, partes)
    ensures AllRooted(Components(AsWritten, paths, camino, partes).0)
    ensures !StartsWith(Components(AsWritten, paths, camino, partes).1, "/")
    decreases |partes|
  {
    if partes != [] {
      var init := partes[..|partes| - 1];
      var p := partes[|partes| - 1];
      ComponentsAgree(paths, camino, init);
      var (s0, c0) := Components(AsWritten, paths, camino, init);
      if p != "" {
        var c := PosixJoin(c0, p);
        assert p[0] in p;
        assert c != "" && c[0] != '/';
        assert c !in s0;
      }
    }
  }

  predicate AbsoluteRoute(ruta: Option<string>) {
    ruta.None? || ruta.value == "" || StartsWith(ruta.value, "/")
  }

  lemma {:induction false} AddRoutesAgree(paths: set<string>, rutas: seq<Option<string>>)
    requires AllRooted(paths)
    requires forall i :: 0 <= i < |rutas| ==> AbsoluteRoute(rutas[i])
    ensures AddRoutes(AsWritten, paths, rutas) == AddRoutes(Corrected, paths, rutas)
    ensures AddRoutes(AsWritten, paths, rutas).Some? && AllRooted(AddRoutes(AsWritten, paths, rutas).value)
    decreases |rutas|
  {
    if rutas != [] {
      var init := rutas[..|rutas| - 1];
      AddRoutesAgree(paths, init);
      var s := AddRoutes(AsWritten, paths, init).value;
      var ruta := rutas[|rutas| - 1];
      assert AbsoluteRoute(ruta);
      if ruta.Some? && ruta.value != "" {
        SplitWithinNoSep(ruta.value);
        ComponentsAgree(s + {ruta.value}, "", SplitOn(ruta.value, '/'));
      }
    }
  }

  lemma SplitWithinNoSep(r: string)
    ensures forall k :: 0 <= k < |SplitOn(r, '/')| ==> '/' !in SplitOn(r, '/')[k]
  {
  }

  /** When every configured route is absolute (or empty), the written
      expansion is the corrected one: each route comes with all its
      cumulative prefixes, each with a leading '/'. */
  lemma AbsoluteRoutesAgree(t: Target)
    requires t.rutas.Some? ==> forall i :: 0 <= i < |t.rutas.value| ==> AbsoluteRoute(t.rutas.value[i])
    ensures Paths(AsWritten, t) == Paths(Corrected, t)
    ensures Paths(AsWritten, t).Some?
  {
    if t.rutas.Some? {
      AddRoutesAgree(AbsoluteBase, t.rutas.value);
    }
  }

  // ---------------------------------------------------------------------
  // The expansions as the scripts run them.

  /** The loop over the pieces of one route, with the guard each script
      writes; the corrected variant is a definition only. */
  method AddComponents(v: Variant, paths: set<string>, partes: seq<string>) returns (result: set<string>)
    requires !v.Corrected?
    ensures result == Components(v, paths, "", partes).0
  {
    result := paths;
    var camino := "";
    for i := 0 to |partes|
      invariant Components(v, paths, "", partes[..i]) == (result, camino)
    {
      assert partes[..i + 1][..i] == partes[..i];
      var parte := partes[i];
      if parte != "" {
        camino := PosixJoin(camino, parte);
        if camino != "" && camino !in result {
          result := result + {Mark(v, camino)};
        }
      }
    }
    assert partes[..|partes|] == partes;
  }

  /** `obtener_rutas_para_diagnostico(conexion)` of the access diagnosis. */
  method AbsolutePaths(t: Target) returns (r: seq<string>)
    ensures Paths(AsWritten, t).Some?
    ensures TextOrder.StrictlySorted(r) && (set y | y in r) == Paths(AsWritten, t).value
  {
    var paths := AbsoluteBase;
    if t.rutas.Some? {
      var rutas := t.rutas.value;
      for i := 0 to |rutas|
        invariant AddRoutes(AsWritten, AbsoluteBase, rutas[..i]) == Some(paths)
      {
        assert rutas[..i + 1][..i] == rutas[..i];
        var ruta := if rutas[i].Some? then rutas[i].value else "";
        if ruta != "" {
          paths := AddComponents(AsWritten, paths + {ruta}, SplitOn(ruta, '/'));
        }
      }
      assert rutas[..|rutas|] == rutas;
    }
    if t.usuario.Some? {
      paths := paths + {"/home/" + t.usuario.value, "/Users/" + t.usuario.value};
    }
    r := TextOrder.SortedList(paths);
  }

  /** `obtener_rutas_para_diagnostico(conexion)` of the SFTP diagnosis;
      `None` when an entry without `ruta` raises. */
  method RelativePaths(t: Target) returns (r: Option<seq<string>>)
    ensures r.Some? <==> Paths(Relative, t).Some?
    ensures r.Some? ==> TextOrder.StrictlySorted(r.value) && (set y | y in r.value) == Paths(Relative, t).value
  {
    var paths := RelativeBase;
    if t.rutas.Some? {
      var rutas := t.rutas.value;
      for i := 0 to |rutas|
        invariant AddRoutes(Relative, RelativeBase, rutas[..i]) == Some(paths)
      {
        assert rutas[..i + 1][..i] == rutas[..i];
        if rutas[i].None? {
          AddRoutesPrefix(Relative, RelativeBase, rutas, i + 1);
          return None;
        }
        var ruta := rutas[i].value;
        paths := AddComponents(Relative, paths + {ruta}, SplitOn(ruta, '/'));
      }
      assert rutas[..|rutas|] == rutas;
    }
    if t.usuario.Some? {
      paths := paths + {"/home/" + t.usuario.value};
    }
    var sorted := TextOrder.SortedList(paths);
    r := Some(sorted);
  }
}
