/**
  The selection stage of the access diagnosis, `ejecutar_diagnostico_completo`:
  the configured connections are filtered by alias and by type, each kept
  one is merged with its credentials, and the merged type chooses the
  diagnosis to run. Unlike the purge's merge, the alias is written in
  before the credentials are laid over, and local connections take
  credentials too.
*/
module DiagFilter {
  import opened Common
  import opened Config

  /** `conexion.get('tipo', '').lower()`; `None` where `tipo` is not text
      and `.lower()` raises. */
  function TipoText(conf: Dict): Option<string> {
    if "tipo" !in conf then Some("")
    else if conf["tipo"].Str? then Some(Lower(conf["tipo"].s))
    else None
  }

  /** The alias filter lets a connection through: no filter, an empty one,
      or the same alias. */
  predicate AliasKept(alias: string, af: Option<string>) {
    af.None? || af.value == "" || alias == af.value
  }

  /** The type filter lets a lowercased type through. */
  predicate TipoKept(tipo: string, tf: string) {
    tf == "all" || tipo == tf
  }

  /** A configured connection survives both filters. */
  predicate Kept(c: (string, Dict), af: Option<string>, tf: string) {
    AliasKept(c.0, af) && TipoText(c.1).Some? && TipoKept(TipoText(c.1).value, tf)
  }

  /** A connection that passes the alias filter but whose type cannot be
      lowercased: the loop raises there. */
  predicate Breaks(c: (string, Dict), af: Option<string>) {
    AliasKept(c.0, af) && TipoText(c.1).None?
  }

  /** The filter loop: the kept connections in order, or `None` when it
      raises. */
  function Filter(conns: Registry, af: Option<string>, tf: string): Option<Registry>
    decreases |conns|
  {
    if conns == [] then Some([])
    else
      var f := Filter(conns[..|conns| - 1], af, tf);
      var c := conns[|conns| - 1];
      if f.None? || !AliasKept(c.0, af) then f
      else if TipoText(c.1).None? then None
      else if TipoKept(TipoText(c.1).value, tf) then Some(f.value + [c])
      else f
  }

  /** The filter loop of the diagnosis, filling the kept dictionary. */
  method FilterConnections(conns: Registry, af: Option<string>, tf: string) returns (kept: Option<Registry>)
    ensures kept == Filter(conns, af, tf)
  {
    var acc: Registry := [];
    for i := 0 to |conns|
      invariant Filter(conns[..i], af, tf) == Some(acc)
    {
      assert conns[..i + 1][..i] == conns[..i];
      var c := conns[i];
      if AliasKept(c.0, af) {
        var tipo := TipoText(c.1);
        if tipo.None? {
          FilterStops(conns, i + 1, af, tf);
          return None;
        }
        if TipoKept(tipo.value, tf) {
          acc := acc + [c];
        }
      }
    }
    assert conns[..|conns|] == conns;
    return Some(acc);
  }

  /** Once the loop has raised, nothing after it is looked at. */
  lemma {:induction false} FilterStops(conns: Registry, n: nat, af: Option<string>, tf: string)
    requires n <= |conns| && Filter(conns[..n], af, tf).None?
    ensures Filter(conns, af, tf).None?
    decreases |conns|
  {
    if n == |conns| {
      assert conns[..n] == conns;
    } else {
      assert conns[..|conns| - 1][..n] == conns[..n];
      FilterStops(conns[..|conns| - 1], n, af, tf);
    }
  }

  /** The filter keeps exactly the connections that pass both filters, in
      their configured order. */
  lemma {:induction false} FilterKeeps(conns: Registry, af: Option<string>, tf: string)
    requires Filter(conns, af, tf).Some?
    ensures forall c :: c in Filter(conns, af, tf).value <==> c in conns && Kept(c, af, tf)
    decreases |conns|
  {
    if conns != [] {
      var init := conns[..|conns| - 1];
      assert Filter(init, af, tf).Some?;
      FilterKeeps(init, af, tf);
      assert conns == init + [conns[|conns| - 1]];
    }
  }

  /** The filter raises exactly when a connection passing the alias filter
      has a type that is not text. */
  lemma {:induction false} FilterBreaks(conns: Registry, af: Option<string>, tf: string)
    ensures Filter(conns, af, tf).None? <==> exists i :: 0 <= i < |conns| && Breaks(conns[i], af)
    decreases |conns|
  {
    if conns != [] {
      var init := conns[..|conns| - 1];
      FilterBreaks(init, af, tf);
      if exists i :: 0 <= i < |init| && Breaks(init[i], af) {
        var i :| 0 <= i < |init| && Breaks(init[i], af);
        assert Breaks(conns[i], af);
      }
      if exists i :: 0 <= i < |conns| && Breaks(conns[i], af) {
        var i :| 0 <= i < |conns| && Breaks(conns[i], af);
        if i < |init| {
          assert Breaks(init[i], af);
        }
      }
    }
  }

  // ---------------------------------------------------------------------
  // The merge with the credentials.

  /** `conexion = conexion_config.copy(); conexion['alias'] = alias;
      conexion.update(credenciales[alias])` when there are credentials. */
  function DiagEntry(alias: string, conf: Dict, creds: map<string, Dict>): Dict {
    var c := conf["alias" := Str(alias)];
    if alias in creds then c + creds[alias] else c
  }

  /** Credential keys win, `alias` included; otherwise the alias is the
      key the connection is filed under and every other setting is the
      configured one. */
  lemma DiagEntryFields(alias: string, conf: Dict, creds: map<string, Dict>, key: string)
    ensures key in DiagEntry(alias, conf, creds) <==>
      key in conf || key == "alias" || (alias in creds && key in creds[alias])
    ensures alias in creds && key in creds[alias] ==> DiagEntry(alias, conf, creds)[key] == creds[alias][key]
    ensures !(alias in creds && key in creds[alias]) && key == "alias" ==> DiagEntry(alias, conf, creds)[key] == Str(alias)
    ensures !(alias in creds && key in creds[alias]) && key != "alias" && key in conf ==>
      DiagEntry(alias, conf, creds)[key] == conf[key]
  {
  }

  /** For a remote connection whose credentials do not name an alias, the
      diagnosis sees the same settings as the purge. */
  lemma AgreesWithPurge(alias: string, conf: Dict, creds: map<string, Dict>)
    requires !IsLocal(conf) && alias in creds && "alias" !in creds[alias]
    ensures Entry(alias, conf, creds) == Some(DiagEntry(alias, conf, creds))
  {
    var a := (conf + creds[alias])["alias" := Str(alias)];
    var b := conf["alias" := Str(alias)] + creds[alias];
    assert a.Keys == b.Keys;
    assert forall k :: k in a ==> a[k] == b[k];
    assert a == b;
  }

  /** An `alias` in the credentials is what the diagnosis reports, while
      the purge keeps the configured key. */
  lemma CredentialAliasWins(alias: string, conf: Dict, creds: map<string, Dict>)
    requires !IsLocal(conf) && alias in creds && "alias" in creds[alias]
    requires creds[alias]["alias"] != Str(alias)
    ensures Entry(alias, conf, creds).Some?
    ensures Entry(alias, conf, creds).value["alias"] == Str(alias)
    ensures DiagEntry(alias, conf, creds)["alias"] != Str(alias)
  {
  }

  // ---------------------------------------------------------------------
  // Dispatch on the merged type.

  datatype Check = LocalCheck | SshCheck | SftpCheck | FtpCheck | UnknownCheck(tipo: string)

  function CheckFor(tipo: string): Check {
    if tipo == "local" then LocalCheck
    else if tipo == "ssh" then SshCheck
    else if tipo == "sftp" then SftpCheck
    else if tipo == "ftp" then FtpCheck
    else UnknownCheck(tipo)
  }

  /** One diagnosis run: the alias, the merged settings handed to it and
      which diagnosis it is. */
  datatype Run = Run(alias: string, conexion: Dict, check: Check)

  /** The runs made, and whether the loop raised on a merged type that is
      not text. */
  datatype Plan = Plan(runs: seq<Run>, crashed: bool)

  predicate Dispatchable(c: (string, Dict), creds: map<string, Dict>) {
    TipoText(DiagEntry(c.0, c.1, creds)).Some?
  }

  function RunOf(c: (string, Dict), creds: map<string, Dict>): Run
    requires Dispatchable(c, creds)
  {
    var e := DiagEntry(c.0, c.1, creds);
    Run(c.0, e, CheckFor(TipoText(e).value))
  }

  /** The diagnosis loop over the kept connections. */
  function Dispatch(kept: Registry, creds: map<string, Dict>): Plan
    decreases |kept|
  {
    if kept == [] then Plan([], false)
    else
      var p := Dispatch(kept[..|kept| - 1], creds);
      var c := kept[|kept| - 1];
      if p.crashed then p
      else if !Dispatchable(c, creds) then p.(crashed := true)
      else p.(runs := p.runs + [RunOf(c, creds)])
  }

  /** Every kept connection is diagnosed in order up to the first one
      whose merged type is not text, where the loop stops. */
  lemma {:induction false} DispatchRuns(kept: Registry, creds: map<string, Dict>)
    ensures var p := Dispatch(kept, creds);
      |p.runs| <= |kept| && forall i :: 0 <= i < |p.runs| ==> Dispatchable(kept[i], creds) && p.runs[i] == RunOf(kept[i], creds)
    ensures var p := Dispatch(kept, creds);
      !p.crashed <==> |p.runs| == |kept|
    ensures var p := Dispatch(kept, creds);
      p.crashed ==> !Dispatchable(kept[|p.runs|], creds)
    decreases |kept|
  {
    if kept != [] {
      var init := kept[..|kept| - 1];
      DispatchRuns(init, creds);
      var p := Dispatch(init, creds);
      assert forall i :: 0 <= i < |init| ==> kept[i] == init[i];
    }
  }

  // ---------------------------------------------------------------------
  // The whole selection.

  datatype Outcome =
    | NoConnections      // no connections configured
    | FilterCrashed      // the filter loop raised
    | NoMatch            // nothing passed the filters
    | Ran(plan: Plan)

  function Diagnose(conns: Registry, creds: map<string, Dict>, af: Option<string>, tf: string): Outcome {
    if conns == [] then NoConnections
    else
      var f := Filter(conns, af, tf);
      if f.None? then FilterCrashed
      else if f.value == [] then NoMatch
      else Ran(Dispatch(f.value, creds))
  }

  method DispatchAll(kept: Registry, creds: map<string, Dict>) returns (p: Plan)
    ensures p == Dispatch(kept, creds)
  {
    p := Plan([], false);
    for i := 0 to |kept|
      invariant p == Dispatch(kept[..i], creds) && !p.crashed
    {
      assert kept[..i + 1][..i] == kept[..i];
      var c := kept[i];
      var e := DiagEntry(c.0, c.1, creds);
      var tipo := TipoText(e);
      if tipo.None? {
        p := p.(crashed := true);
        DispatchStops(kept, i + 1, creds);
        return;
      }
      p := p.(runs := p.runs + [Run(c.0, e, CheckFor(tipo.value))]);
    }
    assert kept[..|kept|] == kept;
  }

  lemma {:induction false} DispatchStops(kept: Registry, n: nat, creds: map<string, Dict>)
    requires n <= |kept| && Dispatch(kept[..n], creds).crashed
    ensures Dispatch(kept, creds) == Dispatch(kept[..n], creds)
    decreases |kept|
  {
    if n == |kept| {
      assert kept[..n] == kept;
    } else {
      assert kept[..|kept| - 1][..n] == kept[..n];
      DispatchStops(kept[..|kept| - 1], n, creds);
    }
  }

  /** `ejecutar_diagnostico_completo` after loading the files. */
  method RunDiagnosis(conns: Registry, creds: map<string, Dict>, af: Option<string>, tf: string) returns (out: Outcome)
    ensures out == Diagnose(conns, creds, af, tf)
  {
    if |conns| == 0 {
      return NoConnections;
    }
    var kept := FilterConnections(conns, af, tf);
    if kept.None? {
      return FilterCrashed;
    }
    if |kept.value| == 0 {
      return NoMatch;
    }
    var p := DispatchAll(kept.value, creds);
    return Ran(p);
  }

  /** Every diagnosed connection is a configured one that passed both
      filters on its configured settings; it is handed its merged
      settings, and the merged type picks the diagnosis. */
  lemma Diagnosed(conns: Registry, creds: map<string, Dict>, af: Option<string>, tf: string, r: Run)
    requires Diagnose(conns, creds, af, tf).Ran? && r in Diagnose(conns, creds, af, tf).plan.runs
    ensures exists c :: c in conns && Kept(c, af, tf) && c.0 == r.alias && r.conexion == DiagEntry(c.0, c.1, creds)
    ensures TipoText(r.conexion).Some? && r.check == CheckFor(TipoText(r.conexion).value)
  {
    var kept := Filter(conns, af, tf).value;
    FilterKeeps(conns, af, tf);
    DispatchRuns(kept, creds);
    var i :| 0 <= i < |Dispatch(kept, creds).runs| && Dispatch(kept, creds).runs[i] == r;
    assert kept[i] in kept;
  }

  /** Without a filter crash, every connection that passes both filters is
      diagnosed unless an earlier merged type stopped the loop. */
  lemma AllKeptDiagnosed(conns: Registry, creds: map<string, Dict>, af: Option<string>, tf: string)
    requires conns != [] && Filter(conns, af, tf).Some?
    requires forall c :: c in conns && Kept(c, af, tf) ==> Dispatchable(c, creds)
    ensures forall c :: c in conns && Kept(c, af, tf) ==>
      Diagnose(conns, creds, af, tf).Ran? && RunOf(c, creds) in Diagnose(conns, creds, af, tf).plan.runs
  {
    var kept := Filter(conns, af, tf).value;
    FilterKeeps(conns, af, tf);
    DispatchRuns(kept, creds);
    var p := Dispatch(kept, creds);
    forall c | c in conns && Kept(c, af, tf)
      ensures RunOf(c, creds) in p.runs
    {
      var i :| 0 <= i < |kept| && kept[i] == c;
      assert p.runs[i] == RunOf(c, creds);
    }
  }
}
