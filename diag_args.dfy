/**
  The option loop of the access diagnosis's `main`. It walks the arguments
  left to right: `--help`/`-h` shows the help and ends the program before
  any diagnosis, `--verbose`/`-v` sets a flag, and `--config`,
  `--credenciales`, `--tipo` and `--alias` take the following argument when
  there is one. Anything else, a trailing value option included, is
  reported as unknown and skipped.
*/
module DiagArgs {
  import opened Common

  datatype Options = Options(
    config: Option<string>,
    creds: Option<string>,
    tipo: string,
    alias: Option<string>,
    verbose: bool,
    help: bool,
    unknown: seq<string>)

  /** The settings before the loop: no files, every type, no alias. */
  const Defaults := Options(None, None, "all", None, false, false, [])

  predicate IsHelp(a: string) {
    a == "--help" || a == "-h"
  }

  predicate IsVerbose(a: string) {
    a == "--verbose" || a == "-v"
  }

  predicate TakesValue(a: string) {
    a == "--config" || a == "--credenciales" || a == "--tipo" || a == "--alias"
  }

  /** Records the value of a value option; the type filter is lowercased. */
  function SetOption(o: Options, opt: string, v: string): Options
    requires TakesValue(opt)
  {
    if opt == "--config" then o.(config := Some(v))
    else if opt == "--credenciales" then o.(creds := Some(v))
    else if opt == "--tipo" then o.(tipo := Lower(v))
    else o.(alias := Some(v))
  }

  /** What the loop makes of `args`, starting from the settings `o`. */
  function Parse(args: seq<string>, o: Options): Options
    decreases |args|
  {
    if args == [] then o
    else if IsHelp(args[0]) then o.(help := true)
    else if IsVerbose(args[0]) then Parse(args[1..], o.(verbose := true))
    else if TakesValue(args[0]) && |args| >= 2 then Parse(args[2..], SetOption(o, args[0], args[1]))
    else Parse(args[1..], o.(unknown := o.unknown + [args[0]]))
  }

  /** The loop itself, over an index that a value option advances twice. */
  method ParseArgs(args: seq<string>) returns (o: Options)
    ensures o == Parse(args, Defaults)
  {
    o := Defaults;
    var i := 0;
    while i < |args|
      invariant 0 <= i <= |args|
      invariant Parse(args[i..], o) == Parse(args, Defaults)
    {
      var arg := args[i];
      assert args[i..][0] == arg && args[i..][1..] == args[i + 1..];
      if IsHelp(arg) {
        o := o.(help := true);
        return;
      } else if IsVerbose(arg) {
        o := o.(verbose := true);
      } else if TakesValue(arg) && i + 1 < |args| {
        assert args[i..][1] == args[i + 1] && args[i..][2..] == args[i + 2..];
        o := SetOption(o, arg, args[i + 1]);
        i := i + 1;
      } else {
        o := o.(unknown := o.unknown + [arg]);
      }
      i := i + 1;
    }
    assert args[i..] == [];
  }

  // ---------------------------------------------------------------------
  // Properties of the loop.

  /** Once a help flag is read, the arguments after it are never looked at. */
  lemma {:induction false} HelpStops(args: seq<string>, rest: seq<string>, o: Options)
    requires Parse(args, o).help && !o.help
    ensures Parse(args + rest, o) == Parse(args, o)
    decreases |args|
  {
    assert args != [];
    assert (args + rest)[0] == args[0];
    if IsHelp(args[0]) {
    } else if IsVerbose(args[0]) {
      assert (args + rest)[1..] == args[1..] + rest;
      HelpStops(args[1..], rest, o.(verbose := true));
    } else if TakesValue(args[0]) && |args| >= 2 {
      assert (args + rest)[1] == args[1];
      assert (args + rest)[2..] == args[2..] + rest;
      HelpStops(args[2..], rest, SetOption(o, args[0], args[1]));
    } else {
      assert (args + rest)[1..] == args[1..] + rest;
      HelpStops(args[1..], rest, o.(unknown := o.unknown + [args[0]]));
    }
  }

  /** The help flag is set only by a help argument, and always by one at
      the front. */
  lemma {:induction false} HelpFromArgument(args: seq<string>, o: Options)
    ensures Parse(args, o).help ==> o.help || exists k :: 0 <= k < |args| && IsHelp(args[k])
    ensures |args| > 0 && IsHelp(args[0]) ==> Parse(args, o).help
    decreases |args|
  {
    if args == [] || IsHelp(args[0]) {
    } else if IsVerbose(args[0]) {
      HelpFromArgument(args[1..], o.(verbose := true));
      HelpWitness(args, 1);
    } else if TakesValue(args[0]) && |args| >= 2 {
      HelpFromArgument(args[2..], SetOption(o, args[0], args[1]));
      HelpWitness(args, 2);
    } else {
      HelpFromArgument(args[1..], o.(unknown := o.unknown + [args[0]]));
      HelpWitness(args, 1);
    }
  }

  lemma HelpWitness(args: seq<string>, n: nat)
    requires n <= |args|
    ensures (exists k :: 0 <= k < |args[n..]| && IsHelp(args[n..][k])) ==> exists k :: 0 <= k < |args| && IsHelp(args[k])
  {
    if exists k :: 0 <= k < |args[n..]| && IsHelp(args[n..][k]) {
      var k :| 0 <= k < |args[n..]| && IsHelp(args[n..][k]);
      assert IsHelp(args[k + n]);
    }
  }

  /** The verbose flag is never cleared, and is set only by a verbose
      argument. */
  lemma {:induction false} VerboseFromArgument(args: seq<string>, o: Options)
    ensures o.verbose ==> Parse(args, o).verbose
    ensures Parse(args, o).verbose ==> o.verbose || exists k :: 0 <= k < |args| && IsVerbose(args[k])
    decreases |args|
  {
    if args == [] || IsHelp(args[0]) {
    } else if IsVerbose(args[0]) {
      VerboseFromArgument(args[1..], o.(verbose := true));
    } else if TakesValue(args[0]) && |args| >= 2 {
      VerboseFromArgument(args[2..], SetOption(o, args[0], args[1]));
      if Parse(args, o).verbose && !o.verbose {
        var k :| 0 <= k < |args[2..]| && IsVerbose(args[2..][k]);
        assert IsVerbose(args[k + 2]);
      }
    } else {
      VerboseFromArgument(args[1..], o.(unknown := o.unknown + [args[0]]));
      if Parse(args, o).verbose && !o.verbose {
        var k :| 0 <= k < |args[1..]| && IsVerbose(args[1..][k]);
        assert IsVerbose(args[k + 1]);
      }
    }
  }

  /** The setting a value option writes: `config`, `creds`, `tipo` or `alias`. */
  function Slot(o: Options, opt: string): Option<string>
    requires TakesValue(opt)
  {
    if opt == "--config" then o.config
    else if opt == "--credenciales" then o.creds
    else if opt == "--tipo" then Some(o.tipo)
    else o.alias
  }

  /** The value a value option stores: the argument, lowercased for `--tipo`. */
  function Stored(opt: string, v: string): string {
    if opt == "--tipo" then Lower(v) else v
  }

  /** Each value option ends up either as it was or holding the argument
      that follows an occurrence of it; only the type is lowercased. */
  lemma {:induction false} ValueFromArgument(args: seq<string>, o: Options, opt: string)
    requires TakesValue(opt)
    ensures var r := Parse(args, o);
      Slot(r, opt) == Slot(o, opt) ||
      exists k :: 1 <= k < |args| && args[k - 1] == opt && Slot(r, opt) == Some(Stored(opt, args[k]))
    decreases |args|
  {
    if args == [] || IsHelp(args[0]) {
    } else {
      var n, o' := 1, o.(unknown := o.unknown + [args[0]]);
      if IsVerbose(args[0]) {
        o' := o.(verbose := true);
      } else if TakesValue(args[0]) && |args| >= 2 {
        n, o' := 2, SetOption(o, args[0], args[1]);
      }
      assert Parse(args, o) == Parse(args[n..], o');
      ValueFromArgument(args[n..], o', opt);
      ShiftSlot(args, n, o', o, Parse(args, o), opt);
    }
  }

  /** Moves a witness found in `args[n..]` back into `args`, and covers the
      value set by the option in front. */
  lemma ShiftSlot(args: seq<string>, n: nat, o': Options, o: Options, r: Options, opt: string)
    requires TakesValue(opt) && 1 <= n <= 2 && n <= |args|
    requires n == 2 ==> TakesValue(args[0]) && o' == SetOption(o, args[0], args[1])
    requires n == 1 ==> Slot(o', opt) == Slot(o, opt)
    requires var t := args[n..];
      Slot(r, opt) == Slot(o', opt) || exists k :: 1 <= k < |t| && t[k - 1] == opt && Slot(r, opt) == Some(Stored(opt, t[k]))
    ensures Slot(r, opt) == Slot(o, opt) ||
      exists k :: 1 <= k < |args| && args[k - 1] == opt && Slot(r, opt) == Some(Stored(opt, args[k]))
  {
    var t := args[n..];
    if Slot(r, opt) != Slot(o', opt) {
      var k :| 1 <= k < |t| && t[k - 1] == opt && Slot(r, opt) == Some(Stored(opt, t[k]));
      assert args[k + n - 1] == t[k - 1] && args[k + n] == t[k];
    } else if n == 2 && Slot(r, opt) != Slot(o, opt) {
      assert args[0] == opt && Slot(r, opt) == Some(Stored(opt, args[1]));
    }
  }

  lemma {:induction false} LowerIdempotent(s: string)
    ensures Lower(Lower(s)) == Lower(s)
    decreases |s|
  {
    if s != [] {
      LowerIdempotent(s[1..]);
      assert Lower(s)[1..] == Lower(s[1..]);
    }
  }

  /** The type filter always reaches the diagnosis lowercased. */
  lemma TipoLowercase(args: seq<string>)
    ensures Lower(Parse(args, Defaults).tipo) == Parse(args, Defaults).tipo
  {
    ValueFromArgument(args, Defaults, "--tipo");
    var r := Parse(args, Defaults);
    if r.tipo == "all" {
      assert Lower("all") == "all";
    } else {
      var k :| 1 <= k < |args| && args[k - 1] == "--tipo" && Some(r.tipo) == Some(Stored("--tipo", args[k]));
      LowerIdempotent(args[k]);
    }
  }

  /** Unknown arguments are only ever appended, and each is an argument. */
  lemma {:induction false} UnknownFromArguments(args: seq<string>, o: Options)
    ensures var r := Parse(args, o);
      |o.unknown| <= |r.unknown| && r.unknown[..|o.unknown|] == o.unknown
    ensures var r := Parse(args, o);
      forall j :: |o.unknown| <= j < |r.unknown| ==> r.unknown[j] in args
    decreases |args|
  {
    if args == [] || IsHelp(args[0]) {
    } else if IsVerbose(args[0]) {
      UnknownFromArguments(args[1..], o.(verbose := true));
    } else if TakesValue(args[0]) && |args| >= 2 {
      UnknownFromArguments(args[2..], SetOption(o, args[0], args[1]));
    } else {
      var o' := o.(unknown := o.unknown + [args[0]]);
      UnknownFromArguments(args[1..], o');
      var r := Parse(args, o);
      assert r.unknown[..|o'.unknown|] == o'.unknown;
      assert r.unknown[..|o.unknown|] == o'.unknown[..|o.unknown|];
    }
  }

  /** The loop reads `p` to its end without stopping at a help argument
      and without a value option left waiting for its value at the end:
      what follows `p` is then parsed on its own. */
  predicate Complete(p: seq<string>)
    decreases |p|
  {
    if p == [] then true
    else if IsHelp(p[0]) then false
    else if IsVerbose(p[0]) then Complete(p[1..])
    else if TakesValue(p[0]) then |p| >= 2 && Complete(p[2..])
    else Complete(p[1..])
  }

  /** Parsing a complete prefix and then the rest is parsing both at once. */
  lemma {:induction false} ParseAppend(p: seq<string>, q: seq<string>, o: Options)
    requires Complete(p)
    ensures Parse(p + q, o) == Parse(q, Parse(p, o))
    ensures !o.help ==> !Parse(p, o).help
    decreases |p|
  {
    if p == [] {
      assert p + q == q;
    } else {
      assert (p + q)[0] == p[0];
      if IsVerbose(p[0]) {
        assert (p + q)[1..] == p[1..] + q;
        ParseAppend(p[1..], q, o.(verbose := true));
      } else if TakesValue(p[0]) {
        assert (p + q)[1] == p[1];
        assert (p + q)[2..] == p[2..] + q;
        ParseAppend(p[2..], q, SetOption(o, p[0], p[1]));
      } else {
        assert (p + q)[1..] == p[1..] + q;
        ParseAppend(p[1..], q, o.(unknown := o.unknown + [p[0]]));
      }
    }
  }

  /** A value option with nothing after it is reported and parsing goes on. */
  lemma TrailingValueOption(args: seq<string>, a: string, o: Options)
    requires TakesValue(a) && !o.help && Complete(args)
    ensures Parse(args + [a], o).unknown == Parse(args, o).unknown + [a]
    ensures !Parse(args + [a], o).help
  {
    ParseAppend(args, [a], o);
  }
}
