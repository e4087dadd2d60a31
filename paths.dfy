/** URL paths as '/'-separated segments, route templates with `{name}`
    parameters, and first-match dispatch over a route table, as the backend's
    router resolves a request path. */
module Paths {
  import opened Wrappers
  import opened Strings

  datatype Verb = GET | POST | DELETE

  /** One segment of a route template: literal text, or a `{name}` parameter
      that matches one non-empty segment. */
  datatype Seg = Lit(text: string) | Param(name: string)

  datatype Route = Route(verb: Verb, pattern: seq<Seg>)

  /** "/a/b/c" from ["a", "b", "c"]. */
  function Join(segs: seq<string>): string
  {
    if segs == [] then "" else "/" + segs[0] + Join(segs[1..])
  }

  /** Splits a path that is empty or starts with '/' into its segments. */
  function Segments(s: string): (r: seq<string>)
    requires s == [] || s[0] == '/'
    ensures forall i :: 0 <= i < |r| ==> '/' !in r[i]
    decreases |s|
  {
    if s == [] then []
    else
      var rest := s[1..];
      var k := IndexOf(rest, '/');
      [rest[..k]] + Segments(rest[k..])
  }

  /** Splitting a joined path gives back its segments. */
  lemma {:induction false} SegmentsJoin(segs: seq<string>)
    requires forall i :: 0 <= i < |segs| ==> '/' !in segs[i]
    ensures Segments(Join(segs)) == segs
  {
    if segs != [] {
      var s := Join(segs);
      var tail := Join(segs[1..]);
      assert s[1..] == segs[0] + tail;
      IndexOfAfter(segs[0], tail, '/');
      assert (segs[0] + tail)[..|segs[0]|] == segs[0];
      assert (segs[0] + tail)[|segs[0]|..] == tail;
      SegmentsJoin(segs[1..]);
    }
  }

  lemma JoinCons(s: string, rest: seq<string>)
    ensures Join([s] + rest) == "/" + s + Join(rest)
  {
    assert ([s] + rest)[1..] == rest;
  }

  /** Matches segments against a template, giving the parameter bindings. */
  function Match(pattern: seq<Seg>, segs: seq<string>): Option<map<string, string>>
    decreases |pattern|
  {
    if pattern == [] then (if segs == [] then Some(map[]) else None)
    else if segs == [] then None
    else
      match pattern[0]
      case Lit(t) => if segs[0] == t then Match(pattern[1..], segs[1..]) else None
      case Param(n) =>
        if segs[0] == "" then None
        else
          match Match(pattern[1..], segs[1..])
          case None => None
          case Some(b) => Some(b[n := segs[0]])
  }

  /** A literal segment consumes an equal segment and rejects any other. */
  lemma MatchLit(t: string, pattern: seq<Seg>, s: string, segs: seq<string>)
    ensures Match([Lit(t)] + pattern, [s] + segs) == if s == t then Match(pattern, segs) else None
  {
    assert ([Lit(t)] + pattern)[1..] == pattern;
    assert ([s] + segs)[1..] == segs;
  }

  /** A template whose second literal differs from the request's second
      segment rejects it. */
  lemma MatchSecondMismatch(a: string, x: string, rest: seq<Seg>, y: string, more: seq<string>)
    requires x != y
    ensures Match([Lit(a), Lit(x)] + rest, [a, y] + more) == None
  {
    assert [Lit(a), Lit(x)] + rest == [Lit(a)] + ([Lit(x)] + rest);
    assert [a, y] + more == [a] + ([y] + more);
    MatchLit(a, [Lit(x)] + rest, a, [y] + more);
    MatchLit(x, rest, y, more);
  }

  /** A parameter consumes any non-empty segment and binds it. */
  lemma MatchParam(n: string, pattern: seq<Seg>, s: string, segs: seq<string>, b: map<string, string>)
    requires s != "" && Match(pattern, segs) == Some(b)
    ensures Match([Param(n)] + pattern, [s] + segs) == Some(b[n := s])
  {
    assert ([Param(n)] + pattern)[1..] == pattern;
    assert ([s] + segs)[1..] == segs;
  }

  /** The index and bindings of the first route of the table that accepts the request. */
  function Dispatch(routes: seq<Route>, verb: Verb, segs: seq<string>): (r: Option<(nat, map<string, string>)>)
    ensures r.Some? ==> r.value.0 < |routes| && routes[r.value.0].verb == verb
                        && Match(routes[r.value.0].pattern, segs) == Some(r.value.1)
    ensures r.Some? ==> forall j :: 0 <= j < r.value.0 ==>
                          routes[j].verb != verb || Match(routes[j].pattern, segs).None?
    ensures r.None? ==> forall j :: 0 <= j < |routes| ==>
                          routes[j].verb != verb || Match(routes[j].pattern, segs).None?
    decreases |routes|
  {
    if routes == [] then None
    else if routes[0].verb == verb && Match(routes[0].pattern, segs).Some? then
      Some((0, Match(routes[0].pattern, segs).value))
    else
      match Dispatch(routes[1..], verb, segs)
      case None => None
      case Some(hit) => Some((hit.0 + 1, hit.1))
  }

  /** A route that accepts the request and is preceded by none that does is
      the one dispatch picks. */
  lemma DispatchFirst(routes: seq<Route>, verb: Verb, segs: seq<string>, i: nat, b: map<string, string>)
    requires i < |routes| && routes[i].verb == verb && Match(routes[i].pattern, segs) == Some(b)
    requires forall j :: 0 <= j < i ==> routes[j].verb != verb || Match(routes[j].pattern, segs).None?
    ensures Dispatch(routes, verb, segs) == Some((i, b))
  {
  }
}
