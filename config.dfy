/**
  The configuration after loading: a dictionary of connections keyed by
  alias, in file order, each a dictionary of settings; and the
  credentials, keyed by alias as well. `combinar_configuracion` merges the
  two; `verificar_dependencias` decides whether the run needs paramiko.
*/
module Config {
  import opened Common
  import opened Rule

  /** One entry of a connection's `rutas` list: a dictionary with `ruta`
      and `dias` (and perhaps `mascara`), or one lacking either key, on
      which `ruta_config['ruta']` or `ruta_config['dias']` raises. */
  datatype RouteEntry = Good(route: RouteConfig) | Malformed

  /** A JSON value as the scripts meet it. */
  datatype Value = Str(s: string) | Num(n: int) | Bool(b: bool) | Null | Routes(entries: seq<RouteEntry>)

  type Dict = map<string, Value>

  /** A Python dictionary keyed by alias, in insertion order. */
  type Registry = seq<(string, Dict)>

  predicate DistinctKeys(conns: Registry) {
    forall i, j :: 0 <= i < j < |conns| ==> conns[i].0 != conns[j].0
  }

  /** `conns.get(alias)` */
  function Find(conns: Registry, alias: string): Option<Dict>
    decreases |conns|
  {
    if conns == [] then None
    else
      var f := Find(conns[..|conns| - 1], alias);
      if f.Some? then f
      else if conns[|conns| - 1].0 == alias then Some(conns[|conns| - 1].1)
      else None
  }

  /** `conexion_config.get('tipo') == 'local'` */
  predicate IsLocal(conf: Dict) {
    "tipo" in conf && conf["tipo"] == Str("local")
  }

  /** What the merge makes of one configured connection: a local one is
      kept with its alias written in; another one needs credentials, which
      are laid over the configuration before the alias is written in. The
      check for `tipo`, `host`, `usuario` and `contrasena` only logs. */
  function Entry(alias: string, conf: Dict, creds: map<string, Dict>): Option<Dict> {
    if IsLocal(conf) then Some(conf["alias" := Str(alias)])
    else if alias !in creds then None
    else Some((conf + creds[alias])["alias" := Str(alias)])
  }

  function Merge(conns: Registry, creds: map<string, Dict>): Registry
    decreases |conns|
  {
    if conns == [] then []
    else
      Merge(conns[..|conns| - 1], creds) + Absorbed(conns[|conns| - 1], creds)
  }

  /** The merged entry of one configured connection, if it has one. */
  function Absorbed(c: (string, Dict), creds: map<string, Dict>): Registry {
    match Entry(c.0, c.1, creds)
    case None => []
    case Some(d) => [(c.0, d)]
  }

  /** A configured connection as the Python 3 merge leaves it. */
  function AliasedEntry(c: (string, Dict)): (string, Dict) {
    (c.0, if IsLocal(c.1) then c.1["alias" := Str(c.0)] else c.1)
  }

  /** The configuration as the Python 3 merge leaves it: local entries
      are the very dictionaries it returns, so they gain `alias` too. */
  function Aliased(conns: Registry): (r: Registry)
    ensures |r| == |conns|
  {
    if conns == [] then []
    else
      Aliased(conns[..|conns| - 1]) + [AliasedEntry(conns[|conns| - 1])]
  }

  // ---------------------------------------------------------------------
  // What the merge promises.

  lemma {:induction false} FindInKeys(conns: Registry, alias: string)
    requires Find(conns, alias).Some?
    ensures exists i :: 0 <= i < |conns| && conns[i].0 == alias
    decreases |conns|
  {
    var init := conns[..|conns| - 1];
    if Find(init, alias).Some? {
      FindInKeys(init, alias);
      var i :| 0 <= i < |init| && init[i].0 == alias;
      assert conns[i] == init[i];
    } else {
      assert conns[|conns| - 1].0 == alias;
    }
  }

  lemma FindAppend(a: Registry, alias: string, x: (string, Dict))
    ensures Find(a + [x], alias) == if Find(a, alias).Some? then Find(a, alias) else if x.0 == alias then Some(x.1) else None
  {
    assert (a + [x])[..|a|] == a;
  }

  /** Looking up an alias in the merged registry gives exactly what the
      merge makes of that alias's configuration: nothing when the alias is
      not configured or is a non-local one without credentials. */
  lemma {:induction false} MergeLookup(conns: Registry, creds: map<string, Dict>, alias: string)
    requires DistinctKeys(conns)
    ensures Find(Merge(conns, creds), alias) == match Find(conns, alias)
                                               case None => None
                                               case Some(conf) => Entry(alias, conf, creds)
    decreases |conns|
  {
    if conns != [] {
      var init := conns[..|conns| - 1];
      var (a, d) := conns[|conns| - 1];
      assert DistinctKeys(init);
      MergeLookup(init, creds, alias);
      var m := Merge(init, creds);
      var e := Entry(a, d, creds);
      if e.Some? {
        FindAppend(m, alias, (a, e.value));
        assert Merge(conns, creds) == m + [(a, e.value)];
      } else {
        assert Merge(conns, creds) == m;
      }
      if Find(init, alias).Some? {
        FindInKeys(init, alias);
        var i :| 0 <= i < |init| && init[i].0 == alias;
        assert conns[i].0 == alias;
        assert a != alias;
      }
    }
  }

  /** Merged entries keep the file order and never repeat an alias. */
  lemma {:induction false} MergeDistinct(conns: Registry, creds: map<string, Dict>)
    requires DistinctKeys(conns)
    ensures DistinctKeys(Merge(conns, creds))
    ensures forall i :: 0 <= i < |Merge(conns, creds)| ==> Find(conns, Merge(conns, creds)[i].0).Some?
    decreases |conns|
  {
    if conns != [] {
      var init := conns[..|conns| - 1];
      var c := conns[|conns| - 1];
      assert conns == init + [c];
      assert DistinctKeys(init);
      MergeDistinct(init, creds);
      var m := Merge(init, creds);
      var ab := Absorbed(c, creds);
      AbsorbedKey(c, creds);
      assert Merge(conns, creds) == m + ab;
      forall i | 0 <= i < |m| ensures Find(conns, m[i].0).Some? && m[i].0 != c.0 {
        OlderKey(init, c, m[i].0);
      }
      FindAppend(init, c.0, c);
      DistinctAppend(m, ab, c.0);
    }
  }

  /** The merged entry of a connection, if any, is under its own alias. */
  lemma AbsorbedKey(c: (string, Dict), creds: map<string, Dict>)
    ensures |Absorbed(c, creds)| <= 1
    ensures forall k :: 0 <= k < |Absorbed(c, creds)| ==> Absorbed(c, creds)[k].0 == c.0
  {
  }

  /** An alias found among earlier connections is found in the whole
      registry, and differs from the last alias when the keys are distinct. */
  lemma OlderKey(init: Registry, c: (string, Dict), alias: string)
    requires DistinctKeys(init + [c]) && Find(init, alias).Some?
    ensures Find(init + [c], alias).Some? && alias != c.0
  {
    FindAppend(init, alias, c);
    FindInKeys(init, alias);
    var k :| 0 <= k < |init| && init[k].0 == alias;
    assert (init + [c])[k].0 == alias && (init + [c])[|init|] == c;
  }

  lemma DistinctAppend(m: Registry, ab: Registry, a: string)
    requires DistinctKeys(m) && |ab| <= 1
    requires forall k :: 0 <= k < |ab| ==> ab[k].0 == a
    requires forall i :: 0 <= i < |m| ==> m[i].0 != a
    ensures DistinctKeys(m + ab)
  {
  }

  /** A non-local connection with credentials keeps every configured key
      the credentials do not set, takes every key they do set, and gets
      its alias, even when `host`, `usuario` or `contrasena` is missing;
      one without credentials is dropped; a local one only gains `alias`. */
  lemma EntryFields(alias: string, conf: Dict, creds: map<string, Dict>)
    ensures !IsLocal(conf) && alias !in creds ==> Entry(alias, conf, creds) == None
    ensures IsLocal(conf) ==> Entry(alias, conf, creds) == Some(conf["alias" := Str(alias)])
    ensures !IsLocal(conf) && alias in creds ==>
      var d := Entry(alias, conf, creds).value;
      && d.Keys == conf.Keys + creds[alias].Keys + {"alias"}
      && d["alias"] == Str(alias)
      && (forall k :: k in creds[alias] && k != "alias" ==> d[k] == creds[alias][k])
      && (forall k :: k in conf && k !in creds[alias] && k != "alias" ==> d[k] == conf[k])
  {
  }

  // ---------------------------------------------------------------------
  // The merge as the program runs it.

  /** The loaded configuration file. */
  class ConfigFile {
    var conexiones: Registry

    constructor (conexiones: Registry)
      ensures this.conexiones == conexiones
    {
      this.conexiones := conexiones;
    }

    /** `combinar_configuracion` in Python 3: a local entry is stored as
        it is and then given its alias, so the configuration itself
        changes. */
    method Combine(creds: map<string, Dict>) returns (merged: Registry)
      modifies this
      ensures merged == Merge(old(conexiones), creds)
      ensures conexiones == Aliased(old(conexiones))
    {
      ghost var conns := conexiones;
      merged := [];
      var i := 0;
      while i < |conexiones|
        invariant 0 <= i <= |conns| == |conexiones|
        invariant merged == Merge(conns[..i], creds)
        invariant forall k :: 0 <= k < i ==> conexiones[k] == AliasedEntry(conns[k])
        invariant forall k :: i <= k < |conns| ==> conexiones[k] == conns[k]
      {
        assert conns[..i + 1][..i] == conns[..i];
        var added := AbsorbAt(i, creds);
        merged := merged + added;
        i := i + 1;
      }
      assert conns[..i] == conns;
      forall k | 0 <= k < |conns|
        ensures conexiones[k] == Aliased(conns)[k]
      {
        AliasedAt(conns, k);
      }
    }

    /** One turn of the merge loop. */
    method AbsorbAt(i: nat, creds: map<string, Dict>) returns (added: Registry)
      requires i < |conexiones|
      modifies this
      ensures added == Absorbed(old(conexiones[i]), creds)
      ensures conexiones == old(conexiones)[i := AliasedEntry(old(conexiones[i]))]
    {
      var (alias, conf) := conexiones[i];
      if IsLocal(conf) {
        var d := conf["alias" := Str(alias)];
        conexiones := conexiones[i := (alias, d)];
        added := [(alias, d)];
      } else if alias in creds {
        added := [(alias, (conf + creds[alias])["alias" := Str(alias)])];
      } else {
        added := [];
      }
    }
  }

  /** The Python 3 merge changes each entry on its own: aliases and
      the order of the configuration stay as they were. */
  lemma {:induction false} AliasedAt(conns: Registry, k: int)
    requires 0 <= k < |conns|
    ensures Aliased(conns)[k] == AliasedEntry(conns[k])
    ensures Aliased(conns)[k].0 == conns[k].0
  {
    if k < |conns| - 1 {
      assert conns[..|conns| - 1][k] == conns[k];
      AliasedAt(conns[..|conns| - 1], k);
    }
  }

  /** `combinar_configuracion` in Python 2.7: local entries are copied,
      so the configuration is left as it was. */
  method CombineCopy(conexiones: Registry, creds: map<string, Dict>) returns (merged: Registry)
    ensures merged == Merge(conexiones, creds)
  {
    if conexiones == [] {
      return [];
    }
    merged := [];
    for i := 0 to |conexiones|
      invariant merged == Merge(conexiones[..i], creds)
    {
      assert conexiones[..i + 1][..i] == conexiones[..i];
      var (alias, conf) := conexiones[i];
      if IsLocal(conf) {
        merged := merged + [(alias, conf["alias" := Str(alias)])];
      } else if alias in creds {
        var combined := conf + creds[alias];
        merged := merged + [(alias, combined["alias" := Str(alias)])];
      }
    }
    assert conexiones[..|conexiones|] == conexiones;
  }

  // ---------------------------------------------------------------------
  // `verificar_dependencias`

  predicate NeedsShellLibrary(v: Value) {
    v == Str("ssh") || v == Str("sftp")
  }

  /** `any(conexion['tipo'] in ['ssh', 'sftp'] for ...)`, left to right:
      `None` stands for the `KeyError` of a connection without `tipo`
      reached before any SSH or SFTP one. */
  function NeedsParamiko(conns: Registry): Option<bool>
    decreases |conns|
  {
    if conns == [] then Some(false)
    else if "tipo" !in conns[0].1 then None
    else if NeedsShellLibrary(conns[0].1["tipo"]) then Some(true)
    else NeedsParamiko(conns[1..])
  }

  /** `verificar_dependencias`: false when SSH or SFTP is needed and
      paramiko is missing; `None` when the scan raises. */
  function Dependencies(conns: Registry, paramiko: bool): Option<bool> {
    match NeedsParamiko(conns)
    case None => None
    case Some(needs) => Some(!needs || paramiko)
  }

  predicate HasTipo(d: Dict) {
    "tipo" in d
  }

  /** Connection `i` needs paramiko and every connection before it has a
      `tipo`. */
  predicate FirstShell(conns: Registry, i: int) {
    && 0 <= i < |conns| && HasTipo(conns[i].1) && NeedsShellLibrary(conns[i].1["tipo"])
    && forall j :: 0 <= j < i ==> HasTipo(conns[j].1)
  }

  lemma {:induction false} NeedsParamikoWitness(conns: Registry)
    requires NeedsParamiko(conns) == Some(true)
    ensures exists i :: FirstShell(conns, i)
    decreases |conns|
  {
    if !NeedsShellLibrary(conns[0].1["tipo"]) {
      var rest := conns[1..];
      NeedsParamikoWitness(rest);
      var i :| FirstShell(rest, i);
      assert conns[i + 1] == rest[i];
      forall j | 0 <= j < i + 1 ensures HasTipo(conns[j].1) {
        if j > 0 {
          assert conns[j] == rest[j - 1];
        }
      }
      assert FirstShell(conns, i + 1);
    } else {
      assert FirstShell(conns, 0);
    }
  }

  lemma {:induction false} WitnessNeedsParamiko(conns: Registry, i: int)
    requires FirstShell(conns, i)
    ensures NeedsParamiko(conns) == Some(true)
    decreases i
  {
    if i > 0 {
      assert HasTipo(conns[0].1);
      if !NeedsShellLibrary(conns[0].1["tipo"]) {
        var rest := conns[1..];
        assert rest[i - 1] == conns[i];
        forall j | 0 <= j < i - 1 ensures HasTipo(rest[j].1) {
          assert rest[j] == conns[j + 1];
        }
        WitnessNeedsParamiko(rest, i - 1);
      }
    }
  }

  /** When every connection has a `tipo`, the scan never raises. */
  lemma {:induction false} NeedsParamikoTotal(conns: Registry)
    requires forall i :: 0 <= i < |conns| ==> HasTipo(conns[i].1)
    ensures NeedsParamiko(conns).Some?
    decreases |conns|
  {
    if conns != [] {
      var rest := conns[1..];
      forall i | 0 <= i < |rest| ensures HasTipo(rest[i].1) {
        assert rest[i] == conns[i + 1];
      }
      NeedsParamikoTotal(rest);
    }
  }

  /** A scan answering false has seen every connection: each has a `tipo`
      and none is SSH or SFTP. */
  lemma {:induction false} NeedsParamikoFalse(conns: Registry)
    requires NeedsParamiko(conns) == Some(false)
    ensures forall i :: 0 <= i < |conns| ==> HasTipo(conns[i].1) && !NeedsShellLibrary(conns[i].1["tipo"])
    decreases |conns|
  {
    if conns != [] {
      var rest := conns[1..];
      NeedsParamikoFalse(rest);
      forall i | 1 <= i < |conns| ensures HasTipo(conns[i].1) && !NeedsShellLibrary(conns[i].1["tipo"]) {
        assert conns[i] == rest[i - 1];
      }
    }
  }

  /** The scan answers true exactly when an SSH or SFTP connection comes
      before any connection without `tipo`. */
  lemma NeedsParamikoMeaning(conns: Registry)
    ensures NeedsParamiko(conns) == Some(true) <==> exists i :: FirstShell(conns, i)
  {
    if NeedsParamiko(conns) == Some(true) {
      NeedsParamikoWitness(conns);
    }
    if exists i :: FirstShell(conns, i) {
      var i :| FirstShell(conns, i);
      WitnessNeedsParamiko(conns, i);
    }
  }

  /** The run aborts for dependencies only when an SSH or SFTP connection
      is configured and paramiko is missing. */
  lemma DependenciesMeaning(conns: Registry, paramiko: bool)
    requires forall i :: 0 <= i < |conns| ==> HasTipo(conns[i].1)
    ensures Dependencies(conns, paramiko).Some?
    ensures Dependencies(conns, paramiko) == Some(false) <==>
      !paramiko && exists i :: 0 <= i < |conns| && HasTipo(conns[i].1) && NeedsShellLibrary(conns[i].1["tipo"])
  {
    NeedsParamikoTotal(conns);
    NeedsParamikoMeaning(conns);
    if exists i :: 0 <= i < |conns| && HasTipo(conns[i].1) && NeedsShellLibrary(conns[i].1["tipo"]) {
      var i :| 0 <= i < |conns| && HasTipo(conns[i].1) && NeedsShellLibrary(conns[i].1["tipo"]);
      assert FirstShell(conns, i);
    }
  }
}
