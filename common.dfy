/**
  Small text utilities shared by the retention engine and the diagnostic
  scripts. Each one mirrors a Python built-in that the scripts rely on:
  `str.strip()`, `str.split()`, `str.split(sep)`, `sep.join(...)`,
  `str.startswith`, `str.replace('//', '/')`, `str.lower()` and `str(int)`.
*/
module Common {

  datatype Option<T> = None | Some(value: T)

  /** Python's `str.isspace()` for one character (the characters that
      `str.split()` and `str.strip()` treat as white space). */
  predicate IsSpace(c: char) {
    || ('\t' <= c <= '\r')
    || ('\U{1C}' <= c <= ' ')
    || c == '\U{85}' || c == '\U{A0}' || c == '\U{1680}'
    || ('\U{2000}' <= c <= '\U{200A}')
    || c == '\U{2028}' || c == '\U{2029}' || c == '\U{202F}'
    || c == '\U{205F}' || c == '\U{3000}'
  }

  predicate SpaceFree(s: string) {
    forall i :: 0 <= i < |s| ==> !IsSpace(s[i])
  }

  predicate StartsWith(s: string, p: string) {
    |p| <= |s| && s[..|p|] == p
  }

  /** `str.lstrip()` */
  function LStrip(s: string): (r: string)
    ensures |r| <= |s|
    ensures r == [] || !IsSpace(r[0])
  {
    if s == [] || !IsSpace(s[0]) then s else LStrip(s[1..])
  }

  /** `str.rstrip()` */
  function RStrip(s: string): (r: string)
    ensures |r| <= |s|
    ensures r == [] || !IsSpace(r[|r| - 1])
  {
    if s == [] || !IsSpace(s[|s| - 1]) then s else RStrip(s[..|s| - 1])
  }

  /** `str.strip()` */
  function Strip(s: string): string {
    RStrip(LStrip(s))
  }

  /** `s.split(c)` for a one-character separator: never empty, and the
      pieces joined back with `c` give `s`. */
  function SplitOn(s: string, c: char): (parts: seq<string>)
    ensures |parts| >= 1
    ensures forall k :: 0 <= k < |parts| ==> c !in parts[k]
  {
    if s == [] then [""]
    else
      var rest := SplitOn(s[1..], c);
      if s[0] == c then [""] + rest
      else [[s[0]] + rest[0]] + rest[1..]
  }

  /** `sep.join(parts)` */
  function JoinWith(parts: seq<string>, sep: string): string {
    if |parts| == 0 then ""
    else if |parts| == 1 then parts[0]
    else parts[0] + sep + JoinWith(parts[1..], sep)
  }

  /** Number of leading characters that are not white space. */
  function WordLen(s: string): (n: nat)
    ensures n <= |s|
    ensures forall k :: 0 <= k < n ==> !IsSpace(s[k])
    ensures n < |s| ==> IsSpace(s[n])
  {
    if s == [] || IsSpace(s[0]) then 0 else 1 + WordLen(s[1..])
  }

  /** `s.split()` with no argument: the maximal runs of non-space
      characters, in order. */
  function Words(s: string): seq<string>
    decreases |s|
  {
    var t := LStrip(s);
    if t == [] then []
    else
      var n := WordLen(t);
      [t[..n]] + Words(t[n..])
  }

  /** `s.replace('//', '/')`: Python scans left to right and replaces
      non-overlapping occurrences, so "///" becomes "//". */
  function CollapseSlashes(s: string): string {
    if |s| < 2 then s
    else if s[0] == '/' && s[1] == '/' then "/" + CollapseSlashes(s[2..])
    else [s[0]] + CollapseSlashes(s[1..])
  }

  predicate HasDoubleSlash(s: string) {
    exists i :: 0 <= i < |s| - 1 && s[i] == '/' && s[i + 1] == '/'
  }

  /** `str.lower()` restricted to the ASCII letters. */
  function Lower(s: string): (r: string)
    ensures |r| == |s|
  {
    if s == [] then ""
    else [if 'A' <= s[0] <= 'Z' then (s[0] as int + 32) as char else s[0]] + Lower(s[1..])
  }

  function DigitChar(d: nat): char
    requires d < 10
  {
    ('0' as int + d) as char
  }

  /** `str(n)` for a natural number. */
  function NatToString(n: nat): (r: string)
    ensures |r| >= 1
    decreases n
  {
    if n < 10 then [DigitChar(n)] else NatToString(n / 10) + [DigitChar(n % 10)]
  }

  /** `str(n)` for an integer. */
  function IntToString(n: int): string {
    if n < 0 then "-" + NatToString(-n) else NatToString(n)
  }

  // ---------------------------------------------------------------------
  // Properties of the helpers that the rest of the model relies on.

  /** `str.lstrip()` drops a prefix made only of white space. */
  lemma {:induction false} LStripSuffix(s: string)
    ensures LStrip(s) == s[|s| - |LStrip(s)|..]
    ensures forall i :: 0 <= i < |s| - |LStrip(s)| ==> IsSpace(s[i])
    decreases |s|
  {
    if s != [] && IsSpace(s[0]) {
      LStripSuffix(s[1..]);
      forall i | 0 < i < |s| - |LStrip(s)| ensures IsSpace(s[i]) {
        assert s[i] == s[1..][i - 1];
      }
    }
  }

  /** `str.rstrip()` drops a suffix made only of white space. */
  lemma {:induction false} RStripPrefix(s: string)
    ensures RStrip(s) == s[..|RStrip(s)|]
    ensures forall i :: |RStrip(s)| <= i < |s| ==> IsSpace(s[i])
    decreases |s|
  {
    if s != [] && IsSpace(s[|s| - 1]) {
      RStripPrefix(s[..|s| - 1]);
      forall i | |RStrip(s)| <= i < |s| - 1 ensures IsSpace(s[i]) {
        assert s[i] == s[..|s| - 1][i];
      }
    }
  }

  lemma {:induction false} LStripNoop(s: string)
    requires s == [] || !IsSpace(s[0])
    ensures LStrip(s) == s
  {
  }

  lemma {:induction false} WordLenOfWord(w: string, rest: string)
    requires SpaceFree(w)
    requires rest == [] || IsSpace(rest[0])
    ensures WordLen(w + rest) == |w|
    decreases |w|
  {
    if w != [] {
      assert !IsSpace(w[0]);
      assert (w + rest)[1..] == w[1..] + rest;
      assert SpaceFree(w[1..]);
      WordLenOfWord(w[1..], rest);
    } else {
      assert w + rest == rest;
    }
  }

  /** A leading word is split off as it is. */
  lemma WordsOfWordThen(w: string, rest: string)
    requires w != [] && SpaceFree(w)
    requires rest == [] || IsSpace(rest[0])
    ensures Words(w + rest) == [w] + Words(rest)
  {
    var s := w + rest;
    LStripNoop(s);
    WordLenOfWord(w, rest);
    assert s[..|w|] == w;
    assert s[|w|..] == rest;
  }

  lemma WordsSkipSpace(rest: string)
    ensures Words(" " + rest) == Words(rest)
  {
    assert (" " + rest)[1..] == rest;
    assert LStrip(" " + rest) == LStrip(rest);
  }

  lemma JoinCons(w: string, more: seq<string>)
    requires |more| >= 1
    ensures JoinWith([w] + more, " ") == w + " " + JoinWith(more, " ")
  {
    var ws := [w] + more;
    assert ws[0] == w && ws[1..] == more;
  }

  /** Joining non-empty space-free words with single spaces and splitting
      the result on white space gives the words back. */
  lemma {:induction false} WordsOfJoin(ws: seq<string>)
    requires forall k :: 0 <= k < |ws| ==> ws[k] != [] && SpaceFree(ws[k])
    ensures Words(JoinWith(ws, " ")) == ws
    decreases |ws|
  {
    if |ws| == 1 {
      WordsOfWordThen(ws[0], "");
      assert ws[0] + "" == ws[0];
    } else if |ws| > 1 {
      var more := ws[1..];
      assert ws == [ws[0]] + more;
      WordsJoinCons(ws[0], more);
      assert forall k :: 0 <= k < |more| ==> more[k] == ws[k + 1];
      WordsOfJoin(more);
    }
  }

  lemma WordsJoinCons(w: string, more: seq<string>)
    requires w != [] && SpaceFree(w) && |more| >= 1
    ensures Words(JoinWith([w] + more, " ")) == [w] + Words(JoinWith(more, " "))
  {
    JoinCons(w, more);
    WordsCons(w, JoinWith(more, " "));
  }

  /** A word followed by a space and more text is split off as it is. */
  lemma WordsCons(w: string, tail: string)
    requires w != [] && SpaceFree(w)
    ensures Words(w + " " + tail) == [w] + Words(tail)
  {
    assert w + " " + tail == w + (" " + tail);
    assert (" " + tail)[0] == ' ';
    WordsOfWordThen(w, " " + tail);
    WordsSkipSpace(tail);
  }

  /** Splitting on a character and joining back with it gives the text
      back. */
  lemma {:induction false} JoinSplit(s: string, c: char)
    ensures JoinWith(SplitOn(s, c), [c]) == s
    decreases |s|
  {
    if s != [] {
      var rest := SplitOn(s[1..], c);
      JoinSplit(s[1..], c);
      JoinHead(rest, [c]);
      if s[0] == c {
        JoinHead([""] + rest, [c]);
        assert ([""] + rest)[1..] == rest;
        assert s == [c] + s[1..];
      } else {
        var parts := [[s[0]] + rest[0]] + rest[1..];
        JoinHead(parts, [c]);
        assert parts[1..] == rest[1..];
        assert s == [s[0]] + s[1..];
      }
    }
  }

  lemma JoinHead(parts: seq<string>, sep: string)
    requires |parts| >= 1
    ensures JoinWith(parts, sep) == parts[0] + (if |parts| > 1 then sep + JoinWith(parts[1..], sep) else "")
  {
  }

  /** The characters of the pieces of `s.split(c)` are characters of `s`. */
  lemma {:induction false} SplitWithin(s: string, c: char)
    ensures forall x, i :: x in SplitOn(s, c) && 0 <= i < |x| ==> x[i] in s
    decreases |s|
  {
    if s != [] {
      SplitWithin(s[1..], c);
      var rest := SplitOn(s[1..], c);
      forall x, i | x in SplitOn(s, c) && 0 <= i < |x| ensures x[i] in s {
        assert forall y :: y in rest ==> forall j :: 0 <= j < |y| ==> y[j] in s[1..];
        if s[0] != c && x == [s[0]] + rest[0] && i > 0 {
          assert x[i] == rest[0][i - 1];
          assert rest[0] in rest;
        }
      }
    }
  }

  /** The characters of `Strip(s)` are characters of `s`. */
  lemma StripWithin(s: string)
    ensures forall i :: 0 <= i < |Strip(s)| ==> Strip(s)[i] in s
  {
    var l := LStrip(s);
    LStripSuffix(s);
    RStripPrefix(l);
    forall i | 0 <= i < |Strip(s)| ensures Strip(s)[i] in s {
      assert Strip(s)[i] == l[i];
      assert l[i] == s[|s| - |l| + i];
    }
  }

  lemma {:induction false} CollapseNoDoubleSlash(s: string)
    requires !HasDoubleSlash(s)
    ensures CollapseSlashes(s) == s
    decreases |s|
  {
    if |s| >= 2 {
      assert !(s[0] == '/' && s[1] == '/');
      assert !HasDoubleSlash(s[1..]) by {
        forall i | 0 <= i < |s[1..]| - 1 ensures !(s[1..][i] == '/' && s[1..][i + 1] == '/') {
          assert s[1..][i] == s[i + 1] && s[1..][i + 1] == s[i + 2];
        }
      }
      CollapseNoDoubleSlash(s[1..]);
      assert s == [s[0]] + s[1..];
    }
  }
}

/**
  The name filter of the scripts, `fnmatch.fnmatch(name, mask)`, for masks
  built from `*` (any run of characters), `?` (one character) and literal
  characters. On POSIX `fnmatch` does not fold case, so neither does this.
*/
module Glob {

  predicate Matches(name: string, pat: string)
    decreases |name| + |pat|
  {
    if pat == [] then name == []
    else if pat[0] == '*' then
      Matches(name, pat[1..]) || (name != [] && Matches(name[1..], pat))
    else
      name != [] && (pat[0] == '?' || pat[0] == name[0]) && Matches(name[1..], pat[1..])
  }

  predicate Literal(pat: string) {
    forall i :: 0 <= i < |pat| ==> pat[i] != '*' && pat[i] != '?'
  }

  /** A mask without wildcards matches exactly itself. */
  lemma {:induction false} LiteralMatchesOnlyItself(name: string, pat: string)
    requires Literal(pat)
    ensures Matches(name, pat) <==> name == pat
    decreases |pat|
  {
    if pat != [] {
      assert pat[0] != '*';
      if name != [] {
        LiteralMatchesOnlyItself(name[1..], pat[1..]);
        assert name == [name[0]] + name[1..];
        assert pat == [pat[0]] + pat[1..];
      }
    }
  }

  /** `*` matches every name. */
  lemma {:induction false} StarMatchesAll(name: string)
    ensures Matches(name, "*")
    decreases |name|
  {
    var star := "*";
    assert star[1..] == [];
    if name != [] {
      StarMatchesAll(name[1..]);
    }
  }

  /** `*suffix` matches every name that ends with the literal suffix, such
      as `*.log` and `backup.log`. */
  lemma {:induction false} StarSuffixMatches(stem: string, suffix: string)
    requires Literal(suffix)
    ensures Matches(stem + suffix, "*" + suffix)
    decreases |stem|
  {
    var pat := "*" + suffix;
    assert pat[1..] == suffix;
    if stem == [] {
      assert stem + suffix == suffix;
      LiteralMatchesOnlyItself(suffix, suffix);
    } else {
      assert (stem + suffix)[1..] == stem[1..] + suffix;
      StarSuffixMatches(stem[1..], suffix);
    }
  }
}

/**
  Python's ordering of `str` values (code point by code point, a proper
  prefix first) and `sorted(...)` of a set of strings.
*/
module TextOrder {

  predicate Less(a: string, b: string)
    decreases |a|
  {
    if a == [] then b != []
    else if b == [] then false
    else a[0] < b[0] || (a[0] == b[0] && Less(a[1..], b[1..]))
  }

  lemma {:induction false} LessIrreflexive(a: string)
    ensures !Less(a, a)
    decreases |a|
  {
    if a != [] {
      LessIrreflexive(a[1..]);
    }
  }

  lemma {:induction false} LessTransitive(a: string, b: string, c: string)
    requires Less(a, b) && Less(b, c)
    ensures Less(a, c)
    decreases |a|
  {
    if a != [] && b != [] && c != [] && a[0] == b[0] && b[0] == c[0] {
      LessTransitive(a[1..], b[1..], c[1..]);
    }
  }

  lemma {:induction false} LessTotal(a: string, b: string)
    ensures a == b || Less(a, b) || Less(b, a)
    decreases |a|
  {
    if a != [] && b != [] && a[0] == b[0] {
      LessTotal(a[1..], b[1..]);
      if a[1..] == b[1..] {
        assert a == [a[0]] + a[1..] && b == [b[0]] + b[1..];
      }
    }
  }

  /** Strictly ascending: sorted and free of duplicates. */
  predicate StrictlySorted(s: seq<string>) {
    forall i, j :: 0 <= i < j < |s| ==> Less(s[i], s[j])
  }

  /** Puts `x` at its place in a strictly ascending sequence. */
  method Insert(s: seq<string>, x: string) returns (r: seq<string>)
    requires StrictlySorted(s) && x !in s
    ensures StrictlySorted(r)
    ensures forall y :: y in r <==> y in s || y == x
  {
    var i := 0;
    while i < |s| && Less(s[i], x)
      invariant 0 <= i <= |s|
      invariant forall k :: 0 <= k < i ==> Less(s[k], x)
    {
      i := i + 1;
    }
    if i < |s| {
      LessTotal(s[i], x);
      assert Less(x, s[i]);
      forall k | i < k < |s| ensures Less(x, s[k]) {
        LessTransitive(x, s[i], s[k]);
      }
    }
    r := s[..i] + [x] + s[i..];
    assert forall y :: y in s <==> y in s[..i] || y in s[i..] by {
      assert s == s[..i] + s[i..];
    }
  }

  /** `sorted(list(xs))`: the members of `xs`, ascending, each once. */
  method SortedList(xs: set<string>) returns (r: seq<string>)
    ensures StrictlySorted(r)
    ensures (set y | y in r) == xs
    ensures |r| == |xs|
  {
    r := [];
    var rest := xs;
    while rest != {}
      invariant rest <= xs
      invariant StrictlySorted(r)
      invariant (set y | y in r) == xs - rest
      decreases |rest|
    {
      var x :| x in rest;
      ghost var before := r;
      r := Insert(r, x);
      assert (set y | y in r) == (set y | y in before) + {x};
      rest := rest - {x};
    }
    DistinctLength(r);
  }

  /** A strictly ascending sequence has as many elements as its set. */
  lemma {:induction false} DistinctLength(s: seq<string>)
    requires StrictlySorted(s)
    ensures |set y | y in s| == |s|
    decreases |s|
  {
    if s != [] {
      var tail := s[1..];
      assert StrictlySorted(tail);
      DistinctLength(tail);
      assert s[0] !in tail by {
        forall k | 0 <= k < |tail| ensures tail[k] != s[0] {
          assert Less(s[0], s[k + 1]);
          LessIrreflexive(s[0]);
        }
      }
      assert (set y | y in s) == (set y | y in tail) + {s[0]};
    }
  }
}
