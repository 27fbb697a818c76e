/**
  The per-file retention rule shared by the local, SFTP and FTP purges: a
  file is a deletion candidate when its name passes the optional mask and
  its modification time is strictly before `now - dias * 86400`.
*/
module Rule {
  import opened Common
  import Glob

  /** One entry of a connection's `rutas` list. */
  datatype RouteConfig = RouteConfig(ruta: string, dias: int, mascara: Option<string>)

  const SecondsPerDay := 86400

  /** `if mascara:` — a missing mask and an empty mask both mean "no mask". */
  predicate MaskActive(m: Option<string>) {
    m.Some? && m.value != ""
  }

  /** `not (mascara and not fnmatch(name, mascara))` */
  predicate Admits(name: string, m: Option<string>) {
    !MaskActive(m) || Glob.Matches(name, m.value)
  }

  /** `time.time() - dias * 86400`, with the clock read taken as `now`. */
  function Limit(now: int, dias: int): (t: int)
    ensures dias == 0 ==> t == now
    ensures dias > 0 ==> t < now
  {
    now - dias * SecondsPerDay
  }

  predicate OldEnough(mtime: int, now: int, dias: int) {
    mtime < Limit(now, dias)
  }

  predicate Candidate(name: string, mtime: int, r: RouteConfig, now: int) {
    Admits(name, r.mascara) && OldEnough(mtime, now, r.dias)
  }

  /** Keeping files longer never adds candidates. */
  lemma MoreDaysFewerCandidates(name: string, mtime: int, r: RouteConfig, longer: int, now: int)
    requires longer >= r.dias
    requires Candidate(name, mtime, r.(dias := longer), now)
    ensures Candidate(name, mtime, r, now)
  {
    assert longer * SecondsPerDay >= r.dias * SecondsPerDay;
  }

  /** A later clock read never removes a candidate: the limit only moves
      forward as the clock does. */
  lemma LaterClockMoreCandidates(name: string, mtime: int, r: RouteConfig, now: int, later: int)
    requires now <= later
    requires Candidate(name, mtime, r, now)
    ensures Candidate(name, mtime, r, later)
  {
  }

  /** With `dias = 0` the cut-off is `now` itself and stays strict: a file
      stamped exactly `now` is kept. */
  lemma ZeroDaysIsStrict(name: string, r: RouteConfig, now: int)
    requires r.dias == 0
    ensures !Candidate(name, now, r, now)
    ensures Admits(name, r.mascara) ==> Candidate(name, now - 1, r, now)
  {
  }

  /** Without an active mask every name is admitted. */
  lemma NoMaskAdmitsAll(name: string, m: Option<string>)
    requires m.None? || m == Some("")
    ensures Admits(name, m)
  {
  }
}

/**
  Bookkeeping shared by the tree walks: the set of files still present only
  shrinks, the removed counter grows by exactly the number of files that
  disappeared, and every file that disappeared belongs to an allowed set.
*/
module Ledger {

  /** From `before` to `after`, `gone` files disappeared, all of them in
      `allowed`, and nothing appeared. */
  predicate Shrinks(before: set<string>, after: set<string>, gone: int, allowed: set<string>) {
    after <= before && gone == |before - after| && before - after <= allowed
  }

  lemma Unchanged(s: set<string>, allowed: set<string>)
    ensures Shrinks(s, s, 0, allowed)
  {
    assert s - s == {};
  }

  lemma RemoveOne(s: set<string>, x: string, allowed: set<string>)
    requires x in s && x in allowed
    ensures Shrinks(s, s - {x}, 1, allowed)
  {
    assert s - (s - {x}) == {x};
  }

  lemma Widen(a: set<string>, b: set<string>, g: int, small: set<string>, big: set<string>)
    requires Shrinks(a, b, g, small) && small <= big
    ensures Shrinks(a, b, g, big)
  {
  }

  lemma {:induction false} Chain(a: set<string>, b: set<string>, c: set<string>, g1: int, g2: int, allowed: set<string>)
    requires Shrinks(a, b, g1, allowed) && Shrinks(b, c, g2, allowed)
    ensures Shrinks(a, c, g1 + g2, allowed)
  {
    assert a - c == (a - b) + (b - c);
    assert (a - b) * (b - c) == {};
  }
}

/**
  A directory tree as the purges see it: plain files with an integer
  modification time, and directories with their entries in listing order.
*/
module FsTree {

  datatype Node =
    | File(name: string, mtime: int)
    | Dir(name: string, mtime: int, children: seq<Node>)
}

/**
  How a remote connection as a whole fares: it works throughout, it cannot
  be opened (transport, login or authentication failure), or it breaks when
  it is closed after all routes were handled. In the last two cases the
  connection adds one error per configured route.
*/
module Session {
  import Ledger

  datatype ConnFault = Healthy | ConnectFails | CloseFails

  /** Per-route summary of a remote purge: the counter deltas of a route
      that could be opened, or a route whose probe failed. */
  datatype Report = Verified(removed: int, errored: int) | Unreachable

  function SumRemoved(rs: seq<Report>): (n: int)
    ensures rs == [] ==> n == 0
  {
    if rs == [] then 0
    else SumRemoved(rs[..|rs| - 1]) + (if rs[|rs| - 1].Verified? then rs[|rs| - 1].removed else 0)
  }

  /** Errors reported by routes: their deltas, plus one per unreachable route. */
  function SumErrored(rs: seq<Report>): (n: int)
    ensures rs == [] ==> n == 0
  {
    if rs == [] then 0
    else SumErrored(rs[..|rs| - 1]) + (if rs[|rs| - 1].Verified? then rs[|rs| - 1].errored else 1)
  }

  /** Files still present and the two counters of a remote purge, which
      all routes of one connection share. */
  datatype Tally = Tally(present: set<string>, removed: nat, errored: nat)

  /** Only files of `allowed` disappeared, the removed counter grew by their
      number, and the two counters together grew by at most `budget`. */
  predicate Accounted(s: Tally, t: Tally, allowed: set<string>, budget: nat) {
    && Ledger.Shrinks(s.present, t.present, t.removed - s.removed, allowed)
    && s.errored <= t.errored
    && (t.removed - s.removed) + (t.errored - s.errored) <= budget
  }

  lemma AccountedChain(s: Tally, t: Tally, u: Tally, allowed: set<string>, b1: nat, b2: nat)
    requires Accounted(s, t, allowed, b1) && Accounted(t, u, allowed, b2)
    ensures Accounted(s, u, allowed, b1 + b2)
  {
    Ledger.Chain(s.present, t.present, u.present, t.removed - s.removed, u.removed - t.removed, allowed);
  }

  lemma AccountedRefl(s: Tally, allowed: set<string>, budget: nat)
    ensures Accounted(s, s, allowed, budget)
  {
    Ledger.Unchanged(s.present, allowed);
  }

  lemma AccountedOneError(s: Tally, allowed: set<string>, budget: nat)
    requires budget >= 1
    ensures Accounted(s, s.(errored := s.errored + 1), allowed, budget)
  {
    Ledger.Unchanged(s.present, allowed);
  }
}
